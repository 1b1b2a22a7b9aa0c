/** Block verification for speculative sampling (adapter/block_verify.py): the accepted length is
    decided jointly over a drafted block, then a correction token is drawn.

    One request of the batch is modelled, over exact reals.  A row of probabilities over the
    vocabulary is a function of the token. */
module BlockVerify {
  import opened Options
  import opened RealSums

  type Tokens = seq<nat>
  type Dist = nat -> real
  type Kernel = Tokens -> Dist

  /** The clamp under every denominator of the code. */
  const FLOOR: real := 0.000000000000000000000000000001

  /** Inputs of one request: drafted tokens, |x| + 1 target rows, |x| draft rows, and the number of
      drafts that were really verified (None: all of them). */
  datatype Block = Block(V: nat, x: Tokens, tp: seq<Dist>, dp: seq<Dist>, live: Option<int>)

  function Max(a: real, b: real): real { if a >= b then a else b }
  function Min(a: real, b: real): real { if a <= b then a else b }

  predicate Shaped(b: Block) {
    && |b.x| >= 1 && |b.tp| == |b.x| + 1 && |b.dp| == |b.x|
    && forall i | 0 <= i < |b.x| :: b.x[i] < b.V
  }

  /* ---------------------------------------------------------------- what the code computes */

  predicate Alive(b: Block, i: nat) { b.live.None? || i < b.live.value }

  function Ratio(b: Block, i: nat): real
    requires Shaped(b) && i < |b.x|
  {
    if Alive(b, i) then b.tp[i](b.x[i]) / Max(b.dp[i](b.x[i]), FLOOR) else 0.0
  }

  function NextW(b: Block, i: nat, w: real): real
    requires Shaped(b) && i < |b.x|
  {
    Min(w * Ratio(b, i), 1.0)
  }

  /** w_0 = 1, w_{i+1} = min(w_i * ratio_i, 1). */
  function W(b: Block, i: nat): real
    requires Shaped(b) && i <= |b.x|
  {
    if i == 0 then 1.0 else NextW(b, i - 1, W(b, i - 1))
  }

  /** Equal ratios take equal weights to equal weights. */
  lemma SameRatio(b: Block, c: Block, i: nat)
    requires Shaped(b) && Shaped(c) && i < |b.x| && i < |c.x| && Ratio(b, i) == Ratio(c, i) && W(b, i) == W(c, i)
    ensures W(b, i + 1) == W(c, i + 1)
  {
    hide Ratio;
    assert W(b, i + 1) == NextW(b, i, W(b, i)) && W(c, i + 1) == NextW(c, i, W(c, i));
  }

  /** Draft row i, zero past the verified drafts and past the block. */
  function DraftRow(b: Block, i: nat): Dist
    requires Shaped(b) && i <= |b.x|
  {
    if i < |b.x| && Alive(b, i) then b.dp[i] else ZeroRow()
  }

  function ZeroRow(): Dist { (y: nat) => 0.0 }

  function Over(w: real, p: real, q: real): real { Max(w * p - q, 0.0) }

  function Residual(w: real, p: Dist, q: Dist): Dist { (y: nat) => Over(w, p(y), q(y)) }

  /** max(w_i p - q, 0): both the summand of S_i and the correction residual. */
  function Excess(b: Block, i: nat): Dist
    requires Shaped(b) && i <= |b.x|
  {
    Residual(W(b, i), b.tp[i], DraftRow(b, i))
  }

  function S(b: Block, i: nat): real
    requires Shaped(b) && i <= |b.x|
  {
    Sum(b.V, Excess(b, i))
  }

  function H(b: Block, i: nat): real
    requires Shaped(b) && 1 <= i <= |b.x|
  {
    if i < |b.x| then S(b, i) / Max(S(b, i) + (1.0 - W(b, i)), FLOOR) else W(b, i)
  }

  /** P(the uniform draw of position i is accepted); ThresholdsAreProbabilities bounds it by 0 and 1. */
  function AcceptProb(b: Block, i: nat): real
    requires Shaped(b) && 1 <= i <= |b.x|
  {
    if Alive(b, i - 1) then H(b, i) else 0.0
  }

  /** Correction law at accepted length t. */
  function CorrProb(b: Block, t: nat, y: nat): real
    requires Shaped(b) && t <= |b.x|
  {
    if S(b, t) > 0.0 then Excess(b, t)(y) / S(b, t) else b.tp[t](y)
  }

  /** The accepted length and the correction token, in the quantities of the output law: a verified position
      is accepted exactly when its draw is at most its probability, the length is the last accepted position,
      and the token wins the exponential race over the correction law. */
  method BlockAcceptProbs(b: Block, eta: seq<real>, gumbel: seq<real>) returns (tau: nat, corr: nat)
    requires Shaped(b) && |eta| == |b.x| && |gumbel| == b.V
    requires forall y | 0 <= y < b.V :: gumbel[y] > 0.0
    ensures tau <= |b.x| && corr < b.V
    ensures tau > 0 ==> Alive(b, tau - 1) && eta[tau - 1] <= AcceptProb(b, tau)
    ensures forall i: nat | tau < i <= |b.x| && (eta[i - 1] > 0.0 || Alive(b, i - 1)) :: eta[i - 1] > AcceptProb(b, i)
    ensures forall y: nat | y < b.V :: CorrProb(b, tau, y) / gumbel[y] <= CorrProb(b, tau, corr) / gumbel[corr]
  {
    var ws := Weights(b);
    var h := new real[|b.x|];
    Thresholds(b, ws, h);
    tau := AcceptedLength(b, h, eta);
    var wt := ([1.0] + ws)[tau];
    corr := Race(b, tau, Normalised(b.V, Residual(wt, b.tp[tau], DraftRow(b, tau)), b.tp[tau]), gumbel);
  }

  method Weights(b: Block) returns (ws: seq<real>)
    requires Shaped(b)
    ensures |ws| == |b.x|
    ensures forall j | 0 <= j < |b.x| :: ws[j] == W(b, j + 1)
  {
    var cur := 1.0;
    ws := [];
    for i := 0 to |b.x|
      invariant cur == W(b, i) && |ws| == i
      invariant forall j | 0 <= j < i :: ws[j] == W(b, j + 1)
    {
      cur := NextW(b, i, cur);
      ws := ws + [cur];
    }
  }

  method Thresholds(b: Block, ws: seq<real>, h: array<real>)
    requires Shaped(b) && h.Length == |ws| == |b.x|
    requires forall j | 0 <= j < |b.x| :: ws[j] == W(b, j + 1)
    modifies h
    ensures forall j: nat | j < |b.x| :: h[j] == H(b, j + 1)
  {
    var g := |b.x|;
    for i := 0 to g - 1
      invariant forall j: nat | j < i :: h[j] == H(b, j + 1)
    {
      var s := Sum(b.V, Residual(ws[i], b.tp[i + 1], DraftRow(b, i + 1)));
      h[i] := s / Max(s + (1.0 - ws[i]), FLOOR);
    }
    h[g - 1] := ws[g - 1];
  }

  method AcceptedLength(b: Block, h: array<real>, eta: seq<real>) returns (tau: nat)
    requires Shaped(b) && |eta| == h.Length == |b.x|
    requires forall j: nat | j < |b.x| :: h[j] == H(b, j + 1)
    ensures tau <= |b.x|
    ensures tau > 0 ==> Alive(b, tau - 1) && eta[tau - 1] <= AcceptProb(b, tau)
    ensures forall i: nat | tau < i <= |b.x| && (eta[i - 1] > 0.0 || Alive(b, i - 1)) :: eta[i - 1] > AcceptProb(b, i)
  {
    tau := 0;
    for i := 0 to |b.x|
      invariant tau <= i
      invariant tau > 0 ==> Alive(b, tau - 1) && eta[tau - 1] <= AcceptProb(b, tau)
      invariant forall j: nat | tau < j <= i && (eta[j - 1] > 0.0 || Alive(b, j - 1)) :: eta[j - 1] > AcceptProb(b, j)
    {
      if eta[i] <= h[i] && Alive(b, i) { tau := i + 1; }
    }
  }

  /** The row the code races: res over its floored mass, or the target row when the mass is zero. */
  function Normalised(V: nat, res: Dist, p: Dist): Dist {
    var mass := Sum(V, res);
    if mass > 0.0 then (y: nat) => res(y) / Max(mass, FLOOR) else p
  }

  method Race(b: Block, t: nat, row: Dist, gumbel: seq<real>) returns (corr: nat)
    requires Shaped(b) && t <= |b.x| && row == Normalised(b.V, Excess(b, t), b.tp[t]) && |gumbel| == b.V
    requires forall y | 0 <= y < b.V :: gumbel[y] > 0.0
    ensures corr < b.V
    ensures forall y: nat | y < b.V :: CorrProb(b, t, y) / gumbel[y] <= CorrProb(b, t, corr) / gumbel[corr]
  {
    assert b.x[0] < b.V;
    corr := 0;
    for y := 0 to b.V
      invariant corr < b.V
      invariant forall z: nat | z < y :: row(z) / gumbel[z] <= row(corr) / gumbel[corr]
    {
      if row(y) / gumbel[y] > row(corr) / gumbel[corr] { corr := y; }
    }
    forall z: nat | z < b.V
      ensures CorrProb(b, t, z) / gumbel[z] <= CorrProb(b, t, corr) / gumbel[corr]
    {
      RaceKeepsOrder(b, t, z, gumbel[z], corr, gumbel[corr]);
    }
  }

  /** Dividing by the floored mass instead of the mass does not change the order of the race. */
  lemma RaceKeepsOrder(b: Block, t: nat, y: nat, u: real, c: nat, v: real)
    requires Shaped(b) && t <= |b.x| && u > 0.0 && v > 0.0
    requires var row := Normalised(b.V, Excess(b, t), b.tp[t]); row(y) / u <= row(c) / v
    ensures CorrProb(b, t, y) / u <= CorrProb(b, t, c) / v
  {
    hide Excess;
    var mass := S(b, t);
    if mass > 0.0 {
      ScaledOrder(Excess(b, t)(y), u, Excess(b, t)(c), v, Max(mass, FLOOR));
      ScaledOrder(Excess(b, t)(y), u, Excess(b, t)(c), v, mass);
    }
  }

  lemma ScaledOrder(a: real, u: real, c: real, v: real, m: real)
    requires u > 0.0 && v > 0.0 && m > 0.0
    ensures a / m / u <= c / m / v <==> a / u <= c / v
  {
    var x, y := a / u, c / v;
    DivDiv(a, m, u);
    DivDiv(c, m, v);
    DivOrder(x, y, m);
  }

  lemma DivDiv(a: real, m: real, u: real)
    requires m > 0.0 && u > 0.0
    ensures a / m / u == a / u / m
  {
    var l, r := a / m / u, a / u / m;
    assert l * u == a / m && r * m == a / u;
    assert (l * u) * m == a && (r * m) * u == a;
    assert (l - r) * (m * u) == 0.0;
  }

  lemma DivOrder(x: real, y: real, m: real)
    requires m > 0.0
    ensures x / m <= y / m <==> x <= y
  {
    assert x == (x / m) * m && y == (y / m) * m;
    if x / m <= y / m { assert (y / m - x / m) * m >= 0.0; } else { assert (x / m - y / m) * m > 0.0; }
  }
}
