/** Blocks of one draft, with the clamp on the drafted probability left in: the exact output law, and the
    exact condition under which it is the target's. */
module OneDraft {
  import opened RealSums
  import opened BlockVerify
  import opened OutputLaw
  import opened Losslessness

  /** Acceptance mass that the clamp takes from a drafted y: min(p, q) less what is really accepted. */
  function Taken(m: Setup): nat -> real {
    (y: nat) => Kept(m, [])(y) - Times(m.q([])(y), TW(m, [y]))
  }

  /** The correction hands the taken mass out again, by its own law. */
  function Drift(m: Setup): nat -> real {
    var total := Sum(m.V, Taken(m));
    (y: nat) => Times(total, TCorr(m, [], y)) - Taken(m)(y)
  }

  function Gap(m: Setup, s: Tokens): nat -> real {
    (y: nat) => Times(Drift(m)(y), Continue(m.p, [y], s))
  }

  ghost predicate Single(m: Setup) { Sane(m) && m.g == 1 && !Cut(m, []) }

  /** The clamp takes something exactly where it changes the weight. */
  lemma TakenIff(m: Setup, y: nat)
    requires Single(m) && y < m.V
    ensures Taken(m)(y) >= 0.0
    ensures Taken(m)(y) == 0.0 <==> RatioIdle(1.0, m.p([])(y), m.q([])(y))
  {
    var p, q := m.p([])(y), m.q([])(y);
    assert [y][..0] == [] && TW(m, [y]) == Grown(1.0, p, q);
    TimesUnits(p);
    assert Kept(m, [])(y) == Min(p, q);
    TakenReal(p, q);
    hide Grown, Kept, TW;
  }

  lemma TakenReal(p: real, q: real)
    requires p >= 0.0 && q >= 0.0
    ensures var t := Min(p, q) - Times(q, Grown(1.0, p, q)); t >= 0.0 && (t == 0.0 <==> RatioIdle(1.0, p, q))
  {
    TimesUnits(p);
    if q == 0.0 {
      TimesUnits(Grown(1.0, p, q));
      return;
    }
    if RatioIdle(1.0, p, q) {
      MinScale(1.0, p, q);
      return;
    }
    var r := p / FLOOR;
    TimesUnits(r);
    assert r * FLOOR == p && 0.0 < r < 1.0;
    assert Grown(1.0, p, q) == r;
    assert q * r < q;
    assert q * r < p by { assert (FLOOR - q) * r > 0.0; }
    assert Times(q, Grown(1.0, p, q)) == q * r;
  }

  /** What a drafted y adds: its weight, and then the target's own continuation. */
  lemma BranchValue(m: Setup, s: Tokens, y: nat)
    requires Single(m) && InVocab(m.V, s) && y < m.V
    ensures Branch(m, s, [])(y) == Times(Kept(m, [])(y) - Taken(m)(y), Continue(m.p, [y], s))
  {
    hide Times, TA, TK, TW, DraftExp, EN, EU, Kept, Continue, AfterFrom;
    assert [] + [y] == [y];
    var q, w, c := m.q([])(y), TW(m, [y]), Continue(m.p, [y], s);
    StepUp(m, s, [], y);
    AtCut(m, s, [y]);
    CutValue(m, s, [y]);
    TAtEnd(m, y);
    TimesUnits(Times(w, c));
    TimesLaws(q, w, c);
  }

  lemma TAtEnd(m: Setup, y: nat)
    requires m.g == 1
    ensures TA(m, [y]) == TW(m, [y])
  {}

  function Lost(m: Setup, s: Tokens): nat -> real {
    (y: nat) => Times(Taken(m)(y), Continue(m.p, [y], s))
  }

  /** P(accepted and starts with s) is what losslessness needs, less what the clamp took. */
  lemma AcceptedMass(m: Setup, s: Tokens)
    requires Single(m) && InVocab(m.V, s)
    ensures EU(m, s, []) == Sum(m.V, Joint(m, [], s)) - Sum(m.V, Lost(m, s))
  {
    hide Times, DraftExp, AfterFrom, Continue, Kept, Taken;
    DraftExpUnfold(m, [], 1, AfterFrom(m, s, 0), Branch(m, s, []));
    forall y: nat | y < m.V ensures Branch(m, s, [])(y) == Times(1.0, Joint(m, [], s)(y)) + Times(-1.0, Lost(m, s)(y)) {
      BranchValue(m, s, y);
      assert [] + [y] == [y];
      hide Branch;
      var k, t, c := Kept(m, [])(y), Taken(m)(y), Continue(m.p, [y], s);
      TimesLaws(k - t, t, c);
      TimesUnits(Joint(m, [], s)(y));
      TimesUnits(Lost(m, s)(y));
    }
    SumLinear(m.V, 1.0, Joint(m, [], s), -1.0, Lost(m, s), Branch(m, s, []));
    TimesUnits(Sum(m.V, Joint(m, [], s)));
    TimesUnits(Sum(m.V, Lost(m, s)));
  }

  /** P(the draft is rejected) is the residual mass plus all that the clamp took. */
  lemma RejectedMass(m: Setup)
    requires Single(m)
    ensures EN(m, []) == TS(m, []) + Sum(m.V, Taken(m)) && TK(m, [], []) == 1.0
  {
    hide Times, TS, TK, EN, EU, Kept, Taken;
    TotalIsOne(m, []);
    AcceptedMass(m, []);
    Flow(m, [], []);
    assert Continue(m.p, [], []) == 1.0;
    RootUnits(m);
    forall y: nat | y < m.V ensures Lost(m, [])(y) == Taken(m)(y) {
      assert Continue(m.p, [y], []) == 1.0;
      TimesUnits(Taken(m)(y));
    }
    SumEq(m.V, Lost(m, []), Taken(m));
    TimesUnits(TS(m, []));
    TimesUnits(1.0);
  }

  lemma RootUnits(m: Setup)
    requires Single(m)
    ensures TK(m, [], []) == 1.0 && TW(m, []) == 1.0
  {
    var F := (y: nat) => Times(TCorr(m, [], y), Continue(m.p, [] + [y], []));
    var e := TEx(m, []);
    if TS(m, []) > 0.0 {
      forall y: nat | y < m.V ensures F(y) == Times(1.0 / TS(m, []), e(y)) {
        TimesUnits(TCorr(m, [], y));
        DivIsTimes(e(y), TS(m, []));
      }
      SumScale(m.V, 1.0 / TS(m, []), e, F);
      DivIsTimes(TS(m, []), TS(m, []));
    } else {
      forall y: nat | y < m.V ensures F(y) == m.p([])(y) { TimesUnits(m.p([])(y)); }
      SumEq(m.V, F, m.p([]));
    }
  }

  lemma DivIsTimes(e: real, d: real)
    requires d > 0.0
    ensures e / d == Times(1.0 / d, e) && d / d == 1.0
  {}

  /** The output law of a block of one draft: the target's, plus the drift of the first token. */
  lemma OneDraftLaw(m: Setup, s: Tokens)
    requires Single(m) && InVocab(m.V, s)
    ensures Emit(m, s) == Chain(m.p, s, 0) + Sum(m.V, Gap(m, s))
  {
    hide Times, TS, TK, EN, EU, Kept, Taken, Continue, Chain, Emit, TCorr;
    Root(m, s);
    AcceptedMass(m, s);
    RejectedMass(m);
    RootUnits(m);
    Flow(m, s, []);
    StartsAnywhere(m.p, s);
    GapSum(m, s);
    var k, d := TK(m, [], s), Sum(m.V, Taken(m));
    TimesUnits(Continue(m.p, [], s));
    TimesLaws(TS(m, []), d, k);
    TimesLaws(k, TS(m, []) + d, 1.0);
  }

  lemma GapSum(m: Setup, s: Tokens)
    ensures Sum(m.V, Gap(m, s)) == Times(Sum(m.V, Taken(m)), TK(m, [], s)) - Sum(m.V, Lost(m, s))
  {
    hide Times, Taken, Continue, TCorr;
    var d := Sum(m.V, Taken(m));
    var F := (y: nat) => Times(TCorr(m, [], y), Continue(m.p, [] + [y], s));
    forall y: nat | y < m.V ensures Gap(m, s)(y) == Times(d, F(y)) + Times(-1.0, Lost(m, s)(y)) {
      assert [] + [y] == [y];
      var k, t, c := TCorr(m, [], y), Taken(m)(y), Continue(m.p, [y], s);
      assert Drift(m)(y) == Times(d, k) - t;
      TimesLaws(Times(d, k) - t, t, c);
      TimesLaws(d, k, c);
      TimesUnits(Lost(m, s)(y));
    }
    SumLinear(m.V, d, F, -1.0, Lost(m, s), Gap(m, s));
    TimesUnits(Sum(m.V, Lost(m, s)));
  }

  /** One draft is lossless if and only if the correction gives each token back exactly what the clamp took
      from it; in particular whenever the clamp changes no weight. */
  lemma OneDraftExactIff(m: Setup)
    requires Single(m)
    ensures (forall s: Tokens | InVocab(m.V, s) :: Emit(m, s) == Chain(m.p, s, 0))
       <==> (forall y: nat | y < m.V :: Taken(m)(y) == Times(Sum(m.V, Taken(m)), TCorr(m, [], y)))
  {
    hide Emit, Chain, Taken, TCorr, Times;
    if forall y: nat | y < m.V :: Taken(m)(y) == Times(Sum(m.V, Taken(m)), TCorr(m, [], y)) {
      forall s: Tokens | InVocab(m.V, s) ensures Emit(m, s) == Chain(m.p, s, 0) {
        OneDraftLaw(m, s);
        forall y: nat | y < m.V ensures Gap(m, s)(y) == 0.0 {
          assert Drift(m)(y) == 0.0;
          TimesUnits(Continue(m.p, [y], s));
        }
        SumZero(m.V, Gap(m, s));
      }
    }
    if forall s: Tokens | InVocab(m.V, s) :: Emit(m, s) == Chain(m.p, s, 0) {
      forall y: nat | y < m.V ensures Taken(m)(y) == Times(Sum(m.V, Taken(m)), TCorr(m, [], y)) {
        assert InVocab(m.V, [y]);
        OneDraftLaw(m, [y]);
        GapAt(m, y);
      }
    }
  }

  lemma GapAt(m: Setup, y: nat)
    requires y < m.V
    ensures Sum(m.V, Gap(m, [y])) == Drift(m)(y)
  {
    hide Times, Drift;
    forall z: nat | z < m.V ensures Gap(m, [y])(z) == if z == y then Drift(m)(y) else 0.0 {
      var o := [z];
      assert [y] <= o <==> o[0] == y;
      TimesUnits(Drift(m)(z));
    }
    SumSingle(m.V, y, Gap(m, [y]));
  }

  /** So a clamp that takes from a token which is not over-represented in the target (p <= q), while another
      is, always shows in the output. */
  lemma BelowDraftShows(m: Setup, y: nat)
    requires Single(m) && y < m.V && TS(m, []) > 0.0 && m.p([])(y) <= m.q([])(y)
    requires !RatioIdle(1.0, m.p([])(y), m.q([])(y))
    ensures exists s: Tokens :: InVocab(m.V, s) && Emit(m, s) != Chain(m.p, s, 0)
  {
    TakenIff(m, y);
    assert TCorr(m, [], y) == 0.0;
    TimesUnits(Sum(m.V, Taken(m)));
    OneDraftExactIff(m);
  }

  /** And a clamp that takes only from the one token with p > q never shows: the correction is that token. */
  lemma LoneTokenHides(m: Setup, y: nat)
    requires Single(m) && y < m.V && m.p([])(y) > m.q([])(y)
    requires forall z: nat | z < m.V && z != y ::
               m.p([])(z) <= m.q([])(z) && RatioIdle(1.0, m.p([])(z), m.q([])(z))
    ensures forall s: Tokens | InVocab(m.V, s) :: Emit(m, s) == Chain(m.p, s, 0)
  {
    var e, t := TEx(m, []), Taken(m);
    forall z: nat | z < m.V && z != y ensures e(z) == 0.0 && t(z) == 0.0 { TakenIff(m, z); }
    SumSingle(m.V, y, e);
    SumSingle(m.V, y, t);
    assert TS(m, []) == e(y) > 0.0;
    DivIsTimes(e(y), e(y));
    forall z: nat | z < m.V ensures t(z) == Times(Sum(m.V, t), TCorr(m, [], z)) {
      assert TCorr(m, [], z) == if z == y then 1.0 else 0.0;
      TimesUnits(Sum(m.V, t));
    }
    OneDraftExactIff(m);
    hide Emit, Chain;
  }
}
