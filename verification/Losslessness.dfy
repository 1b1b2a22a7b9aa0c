/** Losslessness of block verification, by backward induction over the tree of drafted prefixes.

    Every quantity of the code depends on the drafts only through the prefix it has seen, so it is
    re-read here as a function of that prefix (TreeAgrees); the induction is Inner and Outer. */
module Losslessness {
  import opened RealSums
  import opened BlockVerify
  import opened OutputLaw

  /* -------------------------------------------------------- the code's quantities on a prefix */

  /** No draft after this prefix is verified. */
  predicate Cut(m: Setup, pre: Tokens) {
    |pre| >= m.g || (m.stop.Some? && m.stop.value(pre))
  }

  /** A prefix that verification can reach. */
  ghost predicate Open(m: Setup, pre: Tokens) {
    |pre| <= m.g && InVocab(m.V, pre) && forall i | 0 <= i < |pre| :: !Cut(m, pre[..i])
  }

  /** A prefix the draft model can produce. */
  ghost predicate Drafted(m: Setup, pre: Tokens) {
    forall i | 0 <= i < |pre| :: m.q(pre[..i])(pre[i]) > 0.0
  }

  /** The weight after a draft of probabilities p and q. */
  function Grown(w: real, p: real, q: real): real { Min(Times(w, p / Max(q, FLOOR)), 1.0) }

  function TStep(m: Setup, u: Tokens, y: nat, w: real): real { Grown(w, m.p(u)(y), m.q(u)(y)) }

  function TW(m: Setup, pre: Tokens): real {
    if pre == [] then 1.0
    else TStep(m, pre[..|pre| - 1], pre[|pre| - 1], TW(m, pre[..|pre| - 1]))
  }

  function TDraft(m: Setup, pre: Tokens): Dist { if Cut(m, pre) then ZeroRow() else m.q(pre) }

  function TEx(m: Setup, pre: Tokens): Dist { Residual(TW(m, pre), m.p(pre), TDraft(m, pre)) }

  function TS(m: Setup, pre: Tokens): real { Sum(m.V, TEx(m, pre)) }

  function TA(m: Setup, pre: Tokens): real {
    if Cut(m, pre) then TW(m, pre) else TS(m, pre) / Max(TS(m, pre) + (1.0 - TW(m, pre)), FLOOR)
  }

  function TCorr(m: Setup, pre: Tokens, y: nat): real {
    if TS(m, pre) > 0.0 then TEx(m, pre)(y) / TS(m, pre) else m.p(pre)(y)
  }

  function TK(m: Setup, pre: Tokens, s: Tokens): real {
    Sum(m.V, (y: nat) => Times(TCorr(m, pre, y), Continue(m.p, pre + [y], s)))
  }

  /** The clamp under a drafted probability q changes no weight: q is not below it, or the weight is 0 or
      saturates anyway. */
  predicate RatioIdle(w: real, p: real, q: real) {
    q == 0.0 || q >= FLOOR || Times(w, p) == 0.0 || Times(w, p) >= FLOOR
  }

  /** The clamp under a threshold's denominator changes no threshold. */
  predicate ThresholdIdle(S: real, w: real) { S == 0.0 || S + (1.0 - w) >= FLOOR }

  /** The 1e-30 clamps change nothing on the prefixes that can occur. */
  ghost predicate FloorsIdle(m: Setup) {
    forall pre: Tokens | Open(m, pre) && Drafted(m, pre) && !Cut(m, pre) ::
      && (forall y: nat | y < m.V :: RatioIdle(TW(m, pre), m.p(pre)(y), m.q(pre)(y)))
      && (pre != [] ==> ThresholdIdle(TS(m, pre), TW(m, pre)))
  }

  ghost predicate Sane(m: Setup) {
    m.g >= 1 && IsKernel(m.V, m.p) && IsKernel(m.V, m.q)
  }

  predicate Full(m: Setup, x: Tokens) { |x| == m.g && m.g >= 1 && InVocab(m.V, x) }

  /** Verified positions: those before the first cut. */
  lemma AliveIsOpen(m: Setup, x: Tokens, i: nat)
    requires Full(m, x) && i <= m.g && Open(m, x[..i])
    ensures forall j: nat | j < i :: Alive(BlockOf(m, x), j)
    ensures Cut(m, x[..i]) ==> forall j: nat | i <= j < m.g :: !Alive(BlockOf(m, x), j)
    ensures !Cut(m, x[..i]) ==> Alive(BlockOf(m, x), i)
  {
    if m.stop.Some? {
      var n := LiveFrom(m.stop.value, x, 0);
      forall j: nat | j < i ensures !m.stop.value(x[..j]) { assert x[..i][..j] == x[..j]; }
    }
  }

  lemma {:induction false} WAgrees(m: Setup, x: Tokens, i: nat)
    requires Full(m, x) && i <= m.g && Open(m, x[..i])
    ensures W(BlockOf(m, x), i) == TW(m, x[..i])
  {
    if i > 0 {
      var u := x[..i - 1];
      assert x[..i][..i - 1] == u;
      OpenPrefix(m, x[..i], i - 1);
      WAgrees(m, x, i - 1);
      AliveIsOpen(m, x, i);
      assert NextW(BlockOf(m, x), i - 1, TW(m, u)) == TStep(m, u, x[i - 1], TW(m, u));
    }
  }

  lemma OpenPrefix(m: Setup, pre: Tokens, i: nat)
    requires Open(m, pre) && i <= |pre|
    ensures Open(m, pre[..i])
  {
    forall j | 0 <= j < i ensures !Cut(m, pre[..i][..j]) { assert pre[..i][..j] == pre[..j]; }
  }

  lemma {:induction false} TWBounds(m: Setup, pre: Tokens)
    requires Sane(m) && InVocab(m.V, pre)
    ensures 0.0 <= TW(m, pre) <= 1.0
  {
    if pre != [] {
      var u, y := pre[..|pre| - 1], pre[|pre| - 1];
      TWBounds(m, u);
      StepBounds(m, u, y, TW(m, u));
    }
  }

  lemma StepBounds(m: Setup, u: Tokens, y: nat, w: real)
    requires Sane(m) && y < m.V && w >= 0.0
    ensures 0.0 <= TStep(m, u, y, w) <= 1.0
  {
    var r := m.p(u)(y) / Max(m.q(u)(y), FLOOR);
    assert m.p(u)(y) >= 0.0 && r >= 0.0;
    assert w * r >= 0.0;
  }

  lemma OverZero(w: real, p: real)
    requires w >= 0.0 && p >= 0.0
    ensures Over(w, p, 0.0) == Times(w, p)
  {}

  /** At a cut the whole target row is residual, so its mass is w. */
  lemma CutMass(m: Setup, pre: Tokens)
    requires Sane(m) && InVocab(m.V, pre) && Cut(m, pre)
    ensures TS(m, pre) == TW(m, pre)
    ensures forall y: nat | y < m.V :: TEx(m, pre)(y) == Times(TW(m, pre), m.p(pre)(y))
  {
    TWBounds(m, pre);
    forall y: nat | y < m.V ensures TEx(m, pre)(y) == Times(TW(m, pre), m.p(pre)(y)) {
      assert TEx(m, pre)(y) == Over(TW(m, pre), m.p(pre)(y), 0.0);
      OverZero(TW(m, pre), m.p(pre)(y));
    }
    SumScale(m.V, TW(m, pre), m.p(pre), TEx(m, pre));
  }

  /** On drafts x, every per-position quantity of the code is the tree's at the prefix of x. */
  lemma TreeAgrees(m: Setup, x: Tokens, i: nat)
    requires Sane(m) && Full(m, x) && i <= m.g && Open(m, x[..i])
    ensures Excess(BlockOf(m, x), i) == TEx(m, x[..i])
    ensures i >= 1 ==> AcceptProb(BlockOf(m, x), i) == TA(m, x[..i])
  {
    var b, pre := BlockOf(m, x), x[..i];
    WAgrees(m, x, i);
    AliveIsOpen(m, x, i);
    assert b.tp[i] == m.p(pre) && DraftRow(b, i) == TDraft(m, pre);
    assert S(b, i) == TS(m, pre);
    if i >= 1 && Cut(m, pre) && i < m.g {
      CutMass(m, pre);
      assert TW(m, pre) / 1.0 == TW(m, pre);
    }
  }

  lemma EmitAgrees(m: Setup, x: Tokens, i: nat, s: Tokens)
    requires Sane(m) && Full(m, x) && i <= m.g && Open(m, x[..i])
    ensures EmitAt(BlockOf(m, x), m.p, s, i) == TK(m, x[..i], s)
  {
    var b, pre := BlockOf(m, x), x[..i];
    TreeAgrees(m, x, i);
    assert b.tp[i] == m.p(pre);
    SumEq(m.V, (y: nat) => Times(CorrProb(b, i, y), Continue(m.p, x[..i] + [y], s)),
          (y: nat) => Times(TCorr(m, pre, y), Continue(m.p, pre + [y], s)));
  }

  /* ----------------------------------------------------------- expectations over later drafts */

  ghost predicate Extends(m: Setup, pre: Tokens, n: nat, x: Tokens) {
    pre <= x && |x| == |pre| + n && InVocab(m.V, x)
  }

  /** h is c f + g on every completion of pre by n drafts. */
  ghost predicate LinearOn(m: Setup, pre: Tokens, n: nat, c: real, f: Tokens -> real, g: Tokens -> real,
          h: Tokens -> real) {
    forall x: Tokens | Extends(m, pre, n, x) :: h(x) == Times(c, f(x)) + g(x)
  }

  /** f is c on every completion of pre by n drafts. */
  ghost predicate ConstOn(m: Setup, pre: Tokens, n: nat, f: Tokens -> real, c: real) {
    forall x: Tokens | Extends(m, pre, n, x) :: f(x) == c
  }

  lemma ExtendsNext(m: Setup, pre: Tokens, y: nat, n: nat, x: Tokens)
    requires Extends(m, pre + [y], n, x)
    ensures Extends(m, pre, n + 1, x)
  {
    assert pre == (pre + [y])[..|pre|];
  }

  lemma LinearNext(m: Setup, pre: Tokens, y: nat, n: nat, c: real, f: Tokens -> real, g: Tokens -> real,
          h: Tokens -> real)
    requires LinearOn(m, pre, n + 1, c, f, g, h)
    ensures LinearOn(m, pre + [y], n, c, f, g, h)
  {
    forall x: Tokens | Extends(m, pre + [y], n, x) ensures h(x) == Times(c, f(x)) + g(x) {
      ExtendsNext(m, pre, y, n, x);
    }
  }

  lemma ConstNext(m: Setup, pre: Tokens, y: nat, n: nat, f: Tokens -> real, c: real)
    requires ConstOn(m, pre, n + 1, f, c)
    ensures ConstOn(m, pre + [y], n, f, c)
  {
    forall x: Tokens | Extends(m, pre + [y], n, x) ensures f(x) == c { ExtendsNext(m, pre, y, n, x); }
  }

  lemma LinearBase(m: Setup, pre: Tokens, c: real, f: Tokens -> real, g: Tokens -> real, h: Tokens -> real)
    requires InVocab(m.V, pre) && LinearOn(m, pre, 0, c, f, g, h)
    ensures DraftExp(m, pre, 0, h) == Times(c, DraftExp(m, pre, 0, f)) + DraftExp(m, pre, 0, g)
  {
    hide Times, InVocab;
    assert Extends(m, pre, 0, pre);
  }

  lemma ConstBase(m: Setup, pre: Tokens, f: Tokens -> real, c: real)
    requires InVocab(m.V, pre) && ConstOn(m, pre, 0, f, c)
    ensures DraftExp(m, pre, 0, f) == c
  {
    hide InVocab;
    assert Extends(m, pre, 0, pre);
  }

  lemma InVocabNext(V: nat, pre: Tokens, y: nat)
    requires InVocab(V, pre) && y < V
    ensures InVocab(V, pre + [y])
  {}

  /** The terms of one more draft. */
  function Drafts(m: Setup, pre: Tokens, n: nat, f: Tokens -> real): nat -> real {
    (y: nat) => Times(m.q(pre)(y), DraftExp(m, pre + [y], n, f))
  }

  lemma DraftExpStep(m: Setup, pre: Tokens, n: nat, f: Tokens -> real)
    ensures DraftExp(m, pre, n + 1, f) == Sum(m.V, Drafts(m, pre, n, f))
  {
    DraftExpUnfold(m, pre, n + 1, f, Drafts(m, pre, n, f));
  }

  lemma {:induction false} DraftExpLinear(m: Setup, pre: Tokens, n: nat, c: real, f: Tokens -> real,
          g: Tokens -> real, h: Tokens -> real)
    requires InVocab(m.V, pre) && LinearOn(m, pre, n, c, f, g, h)
    ensures DraftExp(m, pre, n, h) == Times(c, DraftExp(m, pre, n, f)) + DraftExp(m, pre, n, g)
    decreases n
  {
    hide *;
    if n == 0 {
      LinearBase(m, pre, c, f, g, h);
    } else {
      var F, G, H := Drafts(m, pre, n - 1, f), Drafts(m, pre, n - 1, g), Drafts(m, pre, n - 1, h);
      forall y: nat | y < m.V ensures H(y) == Times(c, F(y)) + Times(1.0, G(y)) {
        InVocabNext(m.V, pre, y);
        LinearNext(m, pre, y, n - 1, c, f, g, h);
        DraftExpLinear(m, pre + [y], n - 1, c, f, g, h);
        LinearTerm(m, pre, n - 1, y, c, f, g, h);
      }
      SumLinear(m.V, c, F, 1.0, G, H);
      DraftExpStep(m, pre, n - 1, f);
      DraftExpStep(m, pre, n - 1, g);
      DraftExpStep(m, pre, n - 1, h);
      TimesUnits(Sum(m.V, G));
    }
  }

  lemma LinearTerm(m: Setup, pre: Tokens, n: nat, y: nat, c: real, f: Tokens -> real, g: Tokens -> real,
          h: Tokens -> real)
    requires DraftExp(m, pre + [y], n, h) == Times(c, DraftExp(m, pre + [y], n, f)) + DraftExp(m, pre + [y], n, g)
    ensures Drafts(m, pre, n, h)(y) == Times(c, Drafts(m, pre, n, f)(y)) + Times(1.0, Drafts(m, pre, n, g)(y))
  {
    Distribute(m.q(pre)(y), c, DraftExp(m, pre + [y], n, f), DraftExp(m, pre + [y], n, g));
    hide Times, DraftExp;
  }

  lemma DraftExpUnfold(m: Setup, pre: Tokens, n: nat, f: Tokens -> real, F: nat -> real)
    requires n > 0
    requires forall y: nat | y < m.V :: F(y) == Times(m.q(pre)(y), DraftExp(m, pre + [y], n - 1, f))
    ensures DraftExp(m, pre, n, f) == Sum(m.V, F)
  {
    hide Times;
    SumEq(m.V, F, (y: nat) => Times(m.q(pre)(y), DraftExp(m, pre + [y], n - 1, f)));
  }

  lemma Distribute(k: real, c: real, u: real, v: real)
    ensures Times(k, Times(c, u) + v) == Times(c, Times(k, u)) + Times(1.0, Times(k, v))
  {}

  lemma {:induction false} DraftExpConst(m: Setup, pre: Tokens, n: nat, f: Tokens -> real, c: real)
    requires IsKernel(m.V, m.q) && InVocab(m.V, pre) && ConstOn(m, pre, n, f, c)
    ensures DraftExp(m, pre, n, f) == c
    decreases n
  {
    hide *;
    if n == 0 {
      ConstBase(m, pre, f, c);
    } else {
      forall y: nat | y < m.V ensures DraftExp(m, pre + [y], n - 1, f) == c {
        InVocabNext(m.V, pre, y);
        ConstNext(m, pre, y, n - 1, f, c);
        DraftExpConst(m, pre + [y], n - 1, f, c);
      }
      DraftExpStep(m, pre, n - 1, f);
      ConstSum(m, pre, n - 1, f, c);
    }
  }

  lemma ConstSum(m: Setup, pre: Tokens, n: nat, f: Tokens -> real, c: real)
    requires IsKernel(m.V, m.q) && forall y: nat | y < m.V :: DraftExp(m, pre + [y], n, f) == c
    ensures Sum(m.V, Drafts(m, pre, n, f)) == c
  {
    hide Times, DraftExp;
    var F := Drafts(m, pre, n, f);
    forall y: nat | y < m.V ensures F(y) == Times(c, m.q(pre)(y)) { TimesLaws(m.q(pre)(y), c, 1.0); }
    SumScale(m.V, c, m.q(pre), F);
    TimesUnits(c);
  }

  function Probs(m: Setup, x: Tokens): (a: seq<real>)
    requires Full(m, x)
    ensures |a| == m.g
  {
    AcceptProbs(BlockOf(m, x))
  }

  function NoneFrom(m: Setup, k: nat): Tokens -> real {
    (x: Tokens) => if Full(m, x) && k <= m.g then NoneAfter(Probs(m, x), k) else 0.0
  }

  function AfterFrom(m: Setup, s: Tokens, k: nat): Tokens -> real {
    (x: Tokens) =>
      if Full(m, x) && k <= m.g then After(Probs(m, x), k, EmitValue(BlockOf(m, x), m.p, s)) else 0.0
  }

  /** P(nothing after the prefix is accepted | the drafts start with pre). */
  function EN(m: Setup, pre: Tokens): real
    requires |pre| <= m.g
  {
    DraftExp(m, pre, m.g - |pre|, NoneFrom(m, |pre|))
  }

  /** P(tau > |pre| and the stream starts with s | the drafts start with pre). */
  function EU(m: Setup, s: Tokens, pre: Tokens): real
    requires |pre| <= m.g
  {
    DraftExp(m, pre, m.g - |pre|, AfterFrom(m, s, |pre|))
  }

  lemma OpenNext(m: Setup, pre: Tokens, y: nat)
    requires Open(m, pre) && !Cut(m, pre) && y < m.V
    ensures Open(m, pre + [y])
  {
    var u := pre + [y];
    forall i | 0 <= i < |u| ensures !Cut(m, u[..i]) {
      if i == |pre| { assert u[..i] == pre; } else { assert u[..i] == pre[..i]; }
    }
  }

  lemma AfterStep(m: Setup, s: Tokens, k: nat, x: Tokens)
    requires Sane(m) && k < m.g && Full(m, x) && Open(m, x[..k + 1])
    ensures AfterFrom(m, s, k)(x)
         == Times(Times(TA(m, x[..k + 1]), TK(m, x[..k + 1], s)), NoneFrom(m, k + 1)(x)) + AfterFrom(m, s, k + 1)(x)
  {
    hide Times, TA, TK, AcceptProb, EmitAt;
    TreeAgrees(m, x, k + 1);
    EmitAgrees(m, x, k + 1, s);
  }

  /** One more draft y after pre. */
  lemma StepUp(m: Setup, s: Tokens, pre: Tokens, y: nat)
    requires Sane(m) && Open(m, pre) && !Cut(m, pre) && y < m.V
    ensures Open(m, pre + [y])
    ensures DraftExp(m, pre + [y], m.g - |pre| - 1, AfterFrom(m, s, |pre|))
         == Times(Times(TA(m, pre + [y]), TK(m, pre + [y], s)), EN(m, pre + [y])) + EU(m, s, pre + [y])
  {
    hide Times, TA, TK, DraftExp, NoneFrom, AfterFrom;
    var k, next := |pre|, pre + [y];
    OpenNext(m, pre, y);
    var c := Times(TA(m, next), TK(m, next, s));
    forall x: Tokens | Extends(m, next, m.g - k - 1, x)
      ensures AfterFrom(m, s, k)(x) == Times(c, NoneFrom(m, k + 1)(x)) + AfterFrom(m, s, k + 1)(x)
    {
      assert x[..k + 1] == next;
      AfterStep(m, s, k, x);
    }
    DraftExpLinear(m, next, m.g - k - 1, c, NoneFrom(m, k + 1), AfterFrom(m, s, k + 1), AfterFrom(m, s, k));
  }

  /** Past a cut nothing is accepted. */
  lemma AtCut(m: Setup, s: Tokens, pre: Tokens)
    requires Sane(m) && Open(m, pre) && Cut(m, pre)
    ensures EN(m, pre) == 1.0 && EU(m, s, pre) == 0.0
  {
    var k := |pre|;
    forall x: Tokens | Extends(m, pre, m.g - k, x)
      ensures NoneFrom(m, k)(x) == 1.0 && AfterFrom(m, s, k)(x) == 0.0
    {
      assert x[..k] == pre && Full(m, x);
      AliveIsOpen(m, x, k);
      NoAcceptance(Probs(m, x), k, EmitValue(BlockOf(m, x), m.p, s));
    }
    DraftExpConst(m, pre, m.g - k, NoneFrom(m, k), 1.0);
    DraftExpConst(m, pre, m.g - k, AfterFrom(m, s, k), 0.0);
  }

  lemma {:induction false} NoAcceptance(a: seq<real>, k: nat, K: nat -> real)
    requires k <= |a| && forall i | k <= i < |a| :: a[i] == 0.0
    ensures NoneAfter(a, k) == 1.0 && After(a, k, K) == 0.0
    decreases |a| - k
  {
    hide Times;
    if k < |a| {
      NoAcceptance(a, k + 1, K);
      TimesUnits(K(k + 1));
      TimesUnits(NoneAfter(a, k + 1));
    }
  }

  /** Accepting nothing and accepting something have total probability one. */
  lemma TotalIsOne(m: Setup, pre: Tokens)
    requires Sane(m) && Open(m, pre)
    ensures EN(m, pre) == 1.0 - EU(m, [], pre)
  {
    hide DraftExp, Times;
    var k := |pre|;
    var one := (x: Tokens) => 1.0;
    forall x: Tokens | Extends(m, pre, m.g - k, x)
      ensures one(x) == Times(1.0, NoneFrom(m, k)(x)) + AfterFrom(m, [], k)(x)
    {
      var b := BlockOf(m, x);
      forall t: nat | t <= m.g ensures EmitValue(b, m.p, [])(t) == 1.0 { CorrectionIsALaw(m, x, t); }
      TotalAfter(Probs(m, x), k, EmitValue(b, m.p, []));
      TimesUnits(NoneFrom(m, k)(x));
    }
    hide NoneFrom, AfterFrom;
    TimesUnits(DraftExp(m, pre, m.g - k, NoneFrom(m, k)));
    DraftExpLinear(m, pre, m.g - k, 1.0, NoneFrom(m, k), AfterFrom(m, [], k), one);
    DraftExpConst(m, pre, m.g - k, one, 1.0);
  }

  /** The correction weights sum to one, whatever the floors and the cap did. */
  lemma CorrectionIsALaw(m: Setup, x: Tokens, t: nat)
    requires Sane(m) && Full(m, x) && t <= m.g
    ensures EmitAt(BlockOf(m, x), m.p, [], t) == 1.0
  {
    hide Times, Excess, W;
    var b := BlockOf(m, x);
    var F := (y: nat) => Times(CorrProb(b, t, y), Continue(m.p, b.x[..t] + [y], []));
    forall y: nat | y < m.V ensures F(y) == CorrProb(b, t, y) { TimesUnits(CorrProb(b, t, y)); }
    if S(b, t) > 0.0 {
      var c := 1.0 / S(b, t);
      forall y: nat | y < m.V ensures F(y) == Times(c, Excess(b, t)(y)) { DivIsMul(Excess(b, t)(y), S(b, t)); }
      SumScale(m.V, c, Excess(b, t), F);
      DivIsMul(S(b, t), S(b, t));
    } else {
      SumEq(m.V, F, m.p(x[..t]));
    }
  }

  lemma DivIsMul(a: real, d: real)
    requires d != 0.0
    ensures a / d == Times(1.0 / d, a)
  {}

  /* ------------------------------------------------------------------ the backward induction */

  /** Sampling the next token from p leaves the chance of s unchanged. */
  lemma ContinueStep(V: nat, p: Kernel, pre: Tokens, s: Tokens, F: nat -> real)
    requires IsKernel(V, p) && InVocab(V, s)
    requires forall y: nat | y < V :: F(y) == Times(p(pre)(y), Continue(p, pre + [y], s))
    ensures Sum(V, F) == Continue(p, pre, s)
  {
    var k := |pre|;
    if |s| <= k {
      var c := if s <= pre then 1.0 else 0.0;
      forall y: nat | y < V ensures F(y) == Times(c, p(pre)(y)) {
        assert s <= pre + [y] <==> s <= pre;
      }
      SumScale(V, c, p(pre), F);
    } else if pre <= s {
      assert s[..k] == pre && s[k] < V;
      forall y: nat | y < V && y != s[k] ensures F(y) == 0.0 {
        assert (pre + [y])[k] == y;
      }
      assert pre + [s[k]] == s[..k + 1];
      SumSingle(V, s[k], F);
      assert |s| == k + 1 ==> s[..k + 1] == s;
      assert Continue(p, s[..k + 1], s) == Chain(p, s, k + 1);
    } else {
      forall y: nat | y < V ensures F(y) == 0.0 {
        assert pre + [y] <= s ==> pre <= s;
        assert s <= pre + [y] && |s| == k + 1 ==> pre <= s;
      }
      SumZero(V, F);
    }
  }

  /** min(w p, q): the part of the target that an accepted draft already covers. */
  function Kept(m: Setup, pre: Tokens): Dist {
    var w := TW(m, pre);
    (y: nat) => Min(Times(w, m.p(pre)(y)), m.q(pre)(y))
  }

  function Joint(m: Setup, pre: Tokens, s: Tokens): nat -> real {
    (y: nat) => Times(Kept(m, pre)(y), Continue(m.p, pre + [y], s))
  }

  lemma MinScale(w: real, p: real, q: real)
    requires q > 0.0 && RatioIdle(w, p, q)
    ensures q * Grown(w, p, q) == Min(Times(w, p), q)
  {
    var d := Max(q, FLOOR);
    var r := p / d;
    var v, t := Times(w, r), Times(w, p);
    assert Grown(w, p, q) == Min(v, 1.0);
    assert r * d == p;
    assert d * v == t;
    if q < FLOOR && t == 0.0 {
      assert v == 0.0;
    } else if q < FLOOR && t >= FLOOR {
      assert d * (v - 1.0) >= 0.0;
      assert v >= 1.0;
    } else if v <= 1.0 {
      assert d * (1.0 - v) >= 0.0;
    } else {
      assert d * (v - 1.0) > 0.0;
    }
  }

  /** Drafting y and keeping its weight w has joint mass min(w p, q). */
  lemma KeptMass(m: Setup, pre: Tokens, y: nat)
    requires m.q(pre)(y) > 0.0 && RatioIdle(TW(m, pre), m.p(pre)(y), m.q(pre)(y))
    ensures Times(m.q(pre)(y), TW(m, pre + [y])) == Kept(m, pre)(y)
  {
    assert (pre + [y])[..|pre|] == pre;
    MinScale(TW(m, pre), m.p(pre)(y), m.q(pre)(y));
    var w, p, q := TW(m, pre), m.p(pre)(y), m.q(pre)(y);
    assert TW(m, pre + [y]) == TStep(m, pre, y, w) == Grown(w, p, q);
    assert Kept(m, pre)(y) == Min(Times(w, p), q);
    hide TW, TStep, Kept, Grown;
  }

  /** The drafts that go on with y. */
  function Branch(m: Setup, s: Tokens, pre: Tokens): nat -> real
    requires |pre| < m.g
  {
    (y: nat) => Times(m.q(pre)(y), DraftExp(m, pre + [y], m.g - |pre| - 1, AfterFrom(m, s, |pre|)))
  }

  lemma DraftIdle(m: Setup, pre: Tokens, y: nat)
    requires Sane(m) && FloorsIdle(m) && Open(m, pre) && Drafted(m, pre) && !Cut(m, pre) && y < m.V
    ensures m.q(pre)(y) >= 0.0 && RatioIdle(TW(m, pre), m.p(pre)(y), m.q(pre)(y)) && InVocab(m.V, pre)
  {
    hide TW, TS, RatioIdle, ThresholdIdle, Drafted;
  }

  lemma InnerTerm(m: Setup, s: Tokens, pre: Tokens, y: nat)
    requires Sane(m) && FloorsIdle(m) && InVocab(m.V, s)
    requires Open(m, pre) && Drafted(m, pre) && !Cut(m, pre) && y < m.V
    ensures Branch(m, s, pre)(y) == Joint(m, pre, s)(y)
    decreases m.g - |pre|, 0
  {
    hide Times, TA, TK, TW, DraftExp, EN, EU, Kept, Continue, AfterFrom, FloorsIdle, Sane, Open, Drafted, RatioIdle;
    var q, c, u := m.q(pre)(y), Continue(m.p, pre + [y], s), pre + [y];
    DraftIdle(m, pre, y);
    if q == 0.0 {
      KeptNothing(m, pre, y);
      TimesUnits(c);
      TimesUnits(DraftExp(m, u, m.g - |pre| - 1, AfterFrom(m, s, |pre|)));
    } else {
      DraftedNext(m, pre, y);
      StepUp(m, s, pre, y);
      Outer(m, s, u);
      KeptMass(m, pre, y);
      TimesLaws(q, TW(m, u), c);
    }
  }

  lemma {:induction false} InnerU(m: Setup, s: Tokens, pre: Tokens)
    requires Sane(m) && FloorsIdle(m) && InVocab(m.V, s)
    requires Open(m, pre) && Drafted(m, pre) && !Cut(m, pre)
    ensures EU(m, s, pre) == Sum(m.V, Joint(m, pre, s))
    decreases m.g - |pre|, 1
  {
    hide Joint, AfterFrom, FloorsIdle, Times, DraftExp;
    DraftExpUnfold(m, pre, m.g - |pre|, AfterFrom(m, s, |pre|), Branch(m, s, pre));
    hide Branch;
    forall y: nat | y < m.V ensures Branch(m, s, pre)(y) == Joint(m, pre, s)(y) { InnerTerm(m, s, pre, y); }
    SumEq(m.V, Branch(m, s, pre), Joint(m, pre, s));
  }

  lemma DraftedNext(m: Setup, pre: Tokens, y: nat)
    requires Drafted(m, pre) && m.q(pre)(y) > 0.0
    ensures Drafted(m, pre + [y])
  {
    var u := pre + [y];
    forall i | 0 <= i < |u| ensures m.q(u[..i])(u[i]) > 0.0 {
      if i == |pre| { assert u[..i] == pre; } else { assert u[..i] == pre[..i]; }
    }
  }

  lemma KeptNothing(m: Setup, pre: Tokens, y: nat)
    requires Sane(m) && InVocab(m.V, pre) && y < m.V && m.q(pre)(y) == 0.0
    ensures Kept(m, pre)(y) == 0.0
  {
    hide TW, Times;
    TWBounds(m, pre);
    assert m.p(pre)(y) >= 0.0;
    TimesNonneg(TW(m, pre), m.p(pre)(y));
  }

  /** P(nothing more is accepted) is 1 - w + S. */
  lemma InnerN(m: Setup, pre: Tokens)
    requires Sane(m) && FloorsIdle(m)
    requires Open(m, pre) && Drafted(m, pre) && !Cut(m, pre)
    ensures EN(m, pre) == 1.0 - TW(m, pre) + TS(m, pre)
    decreases m.g - |pre|, 2
  {
    var w := TW(m, pre);
    TotalIsOne(m, pre);
    InnerU(m, [], pre);
    SumEq(m.V, Joint(m, pre, []), Kept(m, pre));
    var wp := (y: nat) => Times(w, m.p(pre)(y));
    SumScale(m.V, w, m.p(pre), wp);
    forall y: nat | y < m.V ensures Kept(m, pre)(y) == Times(1.0, wp(y)) + Times(-1.0, TEx(m, pre)(y)) {
      OverAndMin(w, m.p(pre)(y), m.q(pre)(y));
    }
    SumLinear(m.V, 1.0, wp, -1.0, TEx(m, pre), Kept(m, pre));
  }

  lemma OverAndMin(w: real, p: real, q: real)
    ensures Over(w, p, q) + Min(Times(w, p), q) == Times(w, p)
  {}

  function Corrected(m: Setup, pre: Tokens, s: Tokens): nat -> real {
    (y: nat) => Times(TEx(m, pre)(y), Continue(m.p, pre + [y], s))
  }

  lemma CorrectedSum(m: Setup, s: Tokens, pre: Tokens)
    ensures Times(TS(m, pre), TK(m, pre, s)) == Sum(m.V, Corrected(m, pre, s))
  {
    hide Times, TW, TEx, Continue;
    var S := TS(m, pre);
    var corr := (y: nat) => Times(TCorr(m, pre, y), Continue(m.p, pre + [y], s));
    ResidualNonneg(m, pre);
    forall y: nat | y < m.V ensures Corrected(m, pre, s)(y) == Times(S, corr(y)) {
      var c := Continue(m.p, pre + [y], s);
      Unscale(TEx(m, pre)(y), S, c);
      TimesUnits(c);
      TimesUnits(corr(y));
    }
    SumScale(m.V, S, corr, Corrected(m, pre, s));
  }

  /** Corrected and kept mass together are w p, token by token. */
  lemma Flow(m: Setup, s: Tokens, pre: Tokens)
    requires Sane(m) && InVocab(m.V, s) && InVocab(m.V, pre) && !Cut(m, pre)
    ensures Times(TS(m, pre), TK(m, pre, s)) + Sum(m.V, Joint(m, pre, s))
         == Times(TW(m, pre), Continue(m.p, pre, s))
  {
    hide Times, TW, TS, TK, Continue, Over, Min;
    var w := TW(m, pre);
    var pc := (y: nat) => Times(m.p(pre)(y), Continue(m.p, pre + [y], s));
    CorrectedSum(m, s, pre);
    ContinueStep(m.V, m.p, pre, s, pc);
    forall y: nat | y < m.V
      ensures Joint(m, pre, s)(y) == Times(w, pc(y)) + Times(-1.0, Corrected(m, pre, s)(y))
    {
      var c := Continue(m.p, pre + [y], s);
      OverAndMin(w, m.p(pre)(y), m.q(pre)(y));
      TimesLaws(w, m.p(pre)(y), c);
      TimesLaws(TEx(m, pre)(y), Kept(m, pre)(y), c);
      TimesUnits(Corrected(m, pre, s)(y));
    }
    SumLinear(m.V, w, pc, -1.0, Corrected(m, pre, s), Joint(m, pre, s));
    TimesUnits(Sum(m.V, Corrected(m, pre, s)));
  }

  lemma Unscale(e: real, S: real, c: real)
    ensures S > 0.0 ==> Times(e, c) == Times(S, Times(e / S, c))
  {
    if S > 0.0 { assert S * (e / S) == e; assert S * ((e / S) * c) == (S * (e / S)) * c; }
  }

  lemma ResidualNonneg(m: Setup, pre: Tokens)
    ensures TS(m, pre) >= 0.0
    ensures TS(m, pre) == 0.0 ==> forall y: nat | y < m.V :: TEx(m, pre)(y) == 0.0
  {
    forall y: nat | y < m.V ensures TEx(m, pre)(y) >= 0.0 {
      assert TEx(m, pre)(y) == Over(TW(m, pre), m.p(pre)(y), TDraft(m, pre)(y));
    }
    SumNonneg(m.V, TEx(m, pre));
  }

  /** Stopping exactly here: threshold times P(nothing later) is S. */
  lemma StopMass(m: Setup, pre: Tokens, none: real)
    requires Sane(m) && FloorsIdle(m) && pre != [] && Open(m, pre) && Drafted(m, pre) && !Cut(m, pre)
    requires none == 1.0 - TW(m, pre) + TS(m, pre)
    ensures Times(TA(m, pre), none) == TS(m, pre)
  {
    hide Times, TW, TS, Sane, RatioIdle;
    assert ThresholdIdle(TS(m, pre), TW(m, pre));
    assert InVocab(m.V, pre);
    hide FloorsIdle, Open, Drafted, ThresholdIdle;
    TWBounds(m, pre);
    ResidualNonneg(m, pre);
    StopMassReal(TS(m, pre), TW(m, pre));
  }

  lemma StopMassReal(S: real, w: real)
    requires S >= 0.0 && 0.0 <= w <= 1.0
    requires ThresholdIdle(S, w)
    ensures Times(S / Max(S + (1.0 - w), FLOOR), 1.0 - w + S) == S
  {
    var d := Max(S + (1.0 - w), FLOOR);
    if S == 0.0 {
      assert S / d == 0.0;
      TimesUnits(1.0 - w + S);
    } else {
      assert d == 1.0 - w + S > 0.0;
      Cancel(S, d);
    }
    hide Times;
  }

  lemma Cancel(a: real, d: real)
    requires d > 0.0
    ensures Times(a / d, d) == a
  {}

  lemma AtTheCut(m: Setup, pre: Tokens)
    ensures Cut(m, pre) ==> TA(m, pre) == TW(m, pre)
    ensures Open(m, pre) ==> InVocab(m.V, pre)
  {}

  /** Being at pre with weight w is worth w times sampling the rest from p. */
  lemma {:induction false} Outer(m: Setup, s: Tokens, pre: Tokens)
    requires Sane(m) && FloorsIdle(m) && InVocab(m.V, s)
    requires pre != [] && Open(m, pre) && Drafted(m, pre)
    ensures Times(Times(TA(m, pre), TK(m, pre, s)), EN(m, pre)) + EU(m, s, pre)
         == Times(TW(m, pre), Continue(m.p, pre, s))
    decreases m.g - |pre|, 3
  {
    assert |pre| <= m.g;
    hide *;
    AtTheCut(m, pre);
    TimesLaws(TA(m, pre), TK(m, pre, s), EN(m, pre));
    if Cut(m, pre) {
      AtCut(m, s, pre);
      CutValue(m, s, pre);
      TimesUnits(Times(TA(m, pre), TK(m, pre, s)));
    } else {
      InnerU(m, s, pre);
      InnerN(m, pre);
      StopMass(m, pre, EN(m, pre));
      Flow(m, s, pre);
    }
  }

  lemma CutValue(m: Setup, s: Tokens, pre: Tokens)
    requires Sane(m) && InVocab(m.V, s) && InVocab(m.V, pre) && Cut(m, pre)
    ensures TK(m, pre, s) == Continue(m.p, pre, s)
  {
    var F := (y: nat) => Times(TCorr(m, pre, y), Continue(m.p, pre + [y], s));
    CutMass(m, pre);
    forall y: nat | y < m.V ensures F(y) == Times(m.p(pre)(y), Continue(m.p, pre + [y], s)) {
      CancelMass(TW(m, pre), m.p(pre)(y));
    }
    ContinueStep(m.V, m.p, pre, s, F);
  }

  lemma CancelMass(w: real, p: real)
    ensures w > 0.0 ==> Times(w, p) / w == p
  {}

  /** Block verification is lossless: for every block length, vocabulary, prefix-dependent target and
      draft, every stopping rule that looks only at earlier drafts and every token sequence s, the
      stream starts with s with exactly the probability it has under p. */
  lemma BlockVerifyLossless(m: Setup, s: Tokens)
    requires Sane(m) && FloorsIdle(m) && InVocab(m.V, s)
    ensures Emit(m, s) == Chain(m.p, s, 0)
  {
    hide Times, TK, TS, EN, EU, Continue;
    assert Continue(m.p, [], s) == Chain(m.p, s, 0) by { StartsAnywhere(m.p, s); }
    Root(m, s);
    if Cut(m, []) {
      AtCut(m, s, []);
      CutValue(m, s, []);
      TimesUnits(TK(m, [], s));
    } else {
      InnerU(m, s, []);
      InnerN(m, []);
      Flow(m, s, []);
      TimesLaws(TS(m, []), TK(m, [], s), 1.0);
      TimesUnits(Continue(m.p, [], s));
    }
  }

  lemma StartsAnywhere(p: Kernel, s: Tokens)
    ensures Continue(p, [], s) == Chain(p, s, 0)
  {}

  /** The emitted probability, split at tau = 0. */
  lemma Root(m: Setup, s: Tokens)
    requires Sane(m)
    ensures Emit(m, s) == Times(TK(m, [], s), EN(m, [])) + EU(m, s, [])
  {
    hide Times, TK, DraftExp;
    forall x: Tokens | Extends(m, [], m.g, x)
      ensures EmitGiven(m, s)(x) == Times(TK(m, [], s), NoneFrom(m, 0)(x)) + AfterFrom(m, s, 0)(x)
    {
      assert x[..0] == [];
      TauExpClosed(Probs(m, x), EmitValue(BlockOf(m, x), m.p, s));
      EmitAgrees(m, x, 0, s);
    }
    DraftExpLinear(m, [], m.g, TK(m, [], s), NoneFrom(m, 0), AfterFrom(m, s, 0), EmitGiven(m, s));
  }
}
