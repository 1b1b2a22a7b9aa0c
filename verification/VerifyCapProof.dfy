/** What the cap keeps: losslessness, because the cut never looks at a token it drops; every committed
    row, because live rows never read dead ones; and the experts the live rows read. */
module VerifyCapProof {
  import opened Options
  import opened RealSums
  import opened BlockVerify
  import opened OutputLaw
  import opened Losslessness
  import opened VerifyCap

  /* --------------------------------------------------------------- the cut as a stopping rule */

  /** The confidence head: the survival of the next draft, from the drafts before it. */
  type Head = Tokens -> real

  function ConfRow(head: Head, x: Tokens): seq<real> {
    seq(|x|, i requires 0 <= i < |x| => head(x[..i]))
  }

  /** Product of the survivals of drafts 0..j, none of which looks at draft j or later. */
  function Survival(head: Head, pre: Tokens, j: nat): real
    requires j <= |pre|
  {
    Times(if j == 0 then 1.0 else Survival(head, pre, j - 1), Unit(head(pre[..j])))
  }

  predicate Fails(thr: Threshold, head: Head, pre: Tokens, j: nat)
    requires (thr.Each? ==> |thr.vals| >= 2) && j <= |pre|
  {
    Survival(head, pre, j) < ThrAt(thr, j)
  }

  /** Stop before draft |pre| + 1 when some survival up to it is under its threshold. */
  function Rule(p: Policy, head: Head): Tokens -> bool
    requires Parsed(p)
  {
    (pre: Tokens) =>
      if p.Fixed? then |pre| >= p.k
      else |pre| >= p.kmin && exists j: nat | j <= |pre| :: Fails(p.thr, head, pre, j)
  }

  lemma {:induction false} SurvivalPrefix(head: Head, pre: Tokens, x: Tokens, j: nat)
    requires j <= |pre| <= |x| && pre == x[..|pre|]
    ensures Survival(head, pre, j) == Survival(head, x, j)
  {
    assert pre[..j] == x[..j];
    if j > 0 { SurvivalPrefix(head, pre, x, j - 1); }
  }

  lemma {:induction false} ProductsAre(head: Head, x: Tokens, c: seq<real>)
    requires |c| <= |x| && forall i | 0 <= i < |c| :: c[i] == Unit(head(x[..i]))
    ensures forall i: nat | i < |c| :: RunningProducts(c)[i] == Survival(head, x, i)
  {
    hide Times;
    if c != [] {
      ProductsAre(head, x, c[..|c| - 1]);
      var r := RunningProducts(c[..|c| - 1]);
      assert r != [] ==> r[|r| - 1] == Survival(head, x, |c| - 2);
    }
  }

  /** The running AND of 0/1 flags is 1 up to the first 0 and 0 from there on. */
  lemma {:induction false} AndsAre(m: seq<nat>, n: nat, i: nat)
    requires n <= |m| && (forall j | 0 <= j < n :: m[j] == 1) && (n < |m| ==> m[n] == 0) && i < |m|
    ensures RunningAnds(m)[i] == if i < n then 1 else 0
  {
    var k := |m| - 1;
    var r := RunningAnds(m[..k]);
    assert RunningAnds(m) == r + [(if r == [] then 1 else r[k - 1]) * m[k]];
    if i < k {
      AndsAre(m[..k], if n <= k then n else k, i);
    } else if k > 0 {
      AndsAre(m[..k], if n <= k then n else k, k - 1);
    }
  }

  /** Summing the running ANDs counts the leading ones. */
  lemma CountLeading(m: seq<nat>, n: nat)
    requires n <= |m| && (forall i | 0 <= i < n :: m[i] == 1) && (n < |m| ==> m[n] == 0)
    ensures Count(RunningAnds(m)) == n
  {
    hide RunningAnds;
    forall i: nat | i < |m| ensures RunningAnds(m)[i] == if i < n then 1 else 0 { AndsAre(m, n, i); }
    CountPrefix(RunningAnds(m), n);
  }

  lemma {:induction false} CountPrefix(r: seq<nat>, n: nat)
    requires n <= |r| && forall i: nat | i < |r| :: r[i] == if i < n then 1 else 0
    ensures Count(r) == n
  {
    if r != [] { CountPrefix(r[..|r| - 1], if n < |r| then n else n - 1); }
  }

  lemma Leading(m: seq<nat>) returns (n: nat)
    requires forall i | 0 <= i < |m| :: m[i] <= 1
    ensures n <= |m| && (forall i | 0 <= i < n :: m[i] == 1) && (n < |m| ==> m[n] == 0)
    ensures Count(RunningAnds(m)) == n
  {
    n := 0;
    while n < |m| && m[n] == 1
      invariant n <= |m| && forall i | 0 <= i < n :: m[i] == 1
    {
      n := n + 1;
    }
    CountLeading(m, n);
  }

  /** A rule that holds exactly from length t on stops at t, or at the end of the drafts. */
  lemma {:induction false} StopsFrom(rule: Tokens -> bool, x: Tokens, t: nat, i: nat)
    requires i <= |x| && i <= t && forall i: nat | i < |x| :: rule(x[..i]) <==> i >= t
    ensures LiveFrom(rule, x, i) == if t <= |x| then t else |x|
    decreases |x| - i
  {
    if i < |x| && i < t { StopsFrom(rule, x, t, i + 1); }
  }

  /** The vectorised cut of every confidence row is the first position at which the rule stops. */
  lemma CutIsStoppingRule(thr: Threshold, kmin: nat, head: Head, x: Tokens)
    requires thr.Each? ==> |thr.vals| >= 2
    ensures LiveDrafts(thr, kmin, |x| + 1, ConfRow(head, x))
            == LiveFrom(Rule(VerifyCap.Confidence(thr, kmin), head), x, 0)
  {
    hide RunningAnds, Rule, RunningProducts, Fails;
    var rule := Rule(VerifyCap.Confidence(thr, kmin), head);
    var m := Mask(thr, ConfRow(head, x));
    MaskFails(thr, head, x);
    var n := Leading(m);
    forall i: nat | i < |x| ensures rule(x[..i]) <==> i >= kmin && i >= n { RuleAt(thr, kmin, head, x, m, n, i); }
    StopsFrom(rule, x, if n < kmin then kmin else n, 0);
  }

  lemma MaskFails(thr: Threshold, head: Head, x: Tokens)
    requires thr.Each? ==> |thr.vals| >= 2
    ensures forall i: nat | i < |x| :: Mask(thr, ConfRow(head, x))[i] == if Fails(thr, head, x, i) then 0 else 1
  {
    var conf := ConfRow(head, x);
    ProductsAre(head, x, seq(|conf|, i requires 0 <= i < |conf| => Unit(conf[i])));
  }

  lemma RuleAt(thr: Threshold, kmin: nat, head: Head, x: Tokens, m: seq<nat>, n: nat, i: nat)
    requires (thr.Each? ==> |thr.vals| >= 2) && i < |x| == |m| && n <= |x|
    requires forall j: nat | j < |x| :: m[j] == if Fails(thr, head, x, j) then 0 else 1
    requires (forall j | 0 <= j < n :: m[j] == 1) && (n < |x| ==> m[n] == 0)
    ensures Rule(VerifyCap.Confidence(thr, kmin), head)(x[..i]) <==> i >= kmin && i >= n
  {
    var pre := x[..i];
    forall j: nat | j <= i ensures Fails(thr, head, pre, j) == Fails(thr, head, x, j) {
      SurvivalPrefix(head, pre, x, j);
    }
    if i >= n { assert Fails(thr, head, pre, n); }
  }

  /** The cut on the configured list itself: past the minimum, draft i + 1 is verified exactly when the survival of
      every draft up to it reaches its threshold, the list giving those of the second draft on. */
  lemma CutOnList(thr: Threshold, kmin: nat, head: Head, x: Tokens, i: nat)
    requires (thr.Each? ==> |thr.vals| >= 2) && kmin <= i < |x|
    ensures i < LiveDrafts(thr, kmin, |x| + 1, ConfRow(head, x)) <==>
              match thr
              case One(t) => forall j: nat | j <= i :: Survival(head, x, j) >= t
              case Each(vals) =>
                forall j: nat | 1 <= j <= i :: Survival(head, x, j) >= vals[if j <= |vals| then j - 1 else |vals| - 1]
  {
    hide RunningAnds, RunningProducts, Survival, ThrAt, Mask, Fails;
    var m := Mask(thr, ConfRow(head, x));
    MaskFails(thr, head, x);
    var n := Leading(m);
    SurvivalNonneg(head, x, 0);
    if i < n {
      forall j: nat | j <= i ensures !Fails(thr, head, x, j) { assert m[j] == 1; }
      ReachAll(thr, head, x, i);
    } else {
      assert m[n] == 0;
      FailsAt(thr, head, x, n, i);
    }
  }

  lemma ReachAll(thr: Threshold, head: Head, x: Tokens, i: nat)
    requires (thr.Each? ==> |thr.vals| >= 2) && i < |x| && forall j: nat | j <= i :: !Fails(thr, head, x, j)
    ensures thr.One? ==> forall j: nat | j <= i :: Survival(head, x, j) >= thr.t
    ensures thr.Each? ==> forall j: nat | 1 <= j <= i ::
              Survival(head, x, j) >= thr.vals[if j <= |thr.vals| then j - 1 else |thr.vals| - 1]
  {
    hide Survival;
    forall j: nat | j <= i ensures Survival(head, x, j) >= ThrAt(thr, j) { assert !Fails(thr, head, x, j); }
  }

  lemma FailsAt(thr: Threshold, head: Head, x: Tokens, n: nat, i: nat)
    requires (thr.Each? ==> |thr.vals| >= 2) && n <= i < |x| && Fails(thr, head, x, n) && Survival(head, x, 0) >= 0.0
    ensures thr.One? ==> Survival(head, x, n) < thr.t
    ensures thr.Each? ==> 1 <= n && Survival(head, x, n) < thr.vals[if n <= |thr.vals| then n - 1 else |thr.vals| - 1]
  {
    hide Survival;
  }

  lemma {:induction false} SurvivalNonneg(head: Head, x: Tokens, j: nat)
    requires j <= |x|
    ensures Survival(head, x, j) >= 0.0
  {
    if j > 0 { SurvivalNonneg(head, x, j - 1); }
    TimesNonneg(if j == 0 then 1.0 else Survival(head, x, j - 1), Unit(head(x[..j])));
  }

  /** A fixed cut stops after its k drafts. */
  lemma FixedIsStoppingRule(k: nat, head: Head, x: Tokens)
    ensures LiveFrom(Rule(Fixed(k), head), x, 0) == if k <= |x| then k else |x|
  {
    StopsFrom(Rule(Fixed(k), head), x, k, 0);
  }

  /** The live count block verification gets under a policy, for drafts x. */
  function Verified(p: Policy, head: Head, x: Tokens): nat
    requires Parsed(p)
  {
    if p.Fixed? then (if p.k <= |x| then p.k else |x|) else LiveDrafts(p.thr, p.kmin, |x| + 1, ConfRow(head, x))
  }

  /** Sampling under any cap policy is lossless: the block it verifies is the stopped block. */
  lemma CappedLossless(m: Setup, p: Policy, head: Head, s: Tokens)
    requires Parsed(p) && m.stop == Some(Rule(p, head))
    requires Sane(m) && FloorsIdle(m) && InVocab(m.V, s)
    ensures forall x: Tokens | |x| >= 1 && InVocab(m.V, x) :: BlockOf(m, x).live == Some(Verified(p, head, x))
    ensures Emit(m, s) == Chain(m.p, s, 0)
  {
    forall x: Tokens | |x| >= 1 && InVocab(m.V, x) ensures BlockOf(m, x).live == Some(Verified(p, head, x)) {
      if p.Fixed? { FixedIsStoppingRule(p.k, head, x); } else { CutIsStoppingRule(p.thr, p.kmin, head, x); }
    }
    BlockVerifyLossless(m, s);
  }

  /* ------------------------------------------------------------- dead rows reach no live row */

  /** A row's routing: expert ids and weights. */
  datatype Routing = Routing(ids: seq<nat>, weights: seq<real>)

  /** A layer: attention over the rows of a request, then a row-local MoE on the routed experts. */
  datatype Net<!H> = Net(attn: (nat, seq<H>) -> seq<H>, route: (nat, H) -> Routing, moe: (nat, H, Routing) -> H)

  /** Two states that agree on the rows of r's request up to r. */
  ghost predicate AgreeUpTo<H>(h: seq<H>, h': seq<H>, stride: nat, r: nat)
    requires stride > 0 && r < |h| == |h'|
  {
    forall i: nat | i <= r && Req(stride, i) == Req(stride, r) :: h[i] == h'[i]
  }

  ghost predicate Causal<H(!new)>(net: Net<H>, stride: nat)
    requires stride > 0
  {
    && (forall l: nat, h: seq<H> :: |net.attn(l, h)| == |h|)
    && (forall l: nat, h: seq<H>, h': seq<H>, r: nat | r < |h| == |h'| && AgreeUpTo(h, h', stride, r) ::
          net.attn(l, h)[r] == net.attn(l, h')[r])
  }

  /** The router output of every row after attention. */
  function Routed<H>(net: Net<H>, l: nat, a: seq<H>): (t: seq<Routing>)
    ensures |t| == |a|
  {
    seq(|a|, r requires 0 <= r < |a| => net.route(l, a[r]))
  }

  function Mixed<H>(net: Net<H>, l: nat, a: seq<H>, t: seq<Routing>): (h: seq<H>)
    requires |t| == |a|
    ensures |h| == |a|
  {
    seq(|a|, r requires 0 <= r < |a| => net.moe(l, a[r], t[r]))
  }

  /** remap_dead_rows on the rows of one layer. */
  function Remapped(t: seq<Routing>, live: seq<nat>, stride: nat): (t': seq<Routing>)
    requires stride > 0
    ensures |t'| == |t|
  {
    seq(|t|, r requires 0 <= r < |t| => (AnchorStays(live, stride, r); t[Src(live, stride, r)]))
  }

  ghost function Stock<H(!new)>(net: Net<H>, n: nat, h: seq<H>, stride: nat): (y: seq<H>)
    requires stride > 0 && Causal(net, stride)
    ensures |y| == |h|
  {
    if n == 0 then h
    else
      var a := net.attn(n - 1, Stock(net, n - 1, h, stride));
      Mixed(net, n - 1, a, Routed(net, n - 1, a))
  }

  ghost function Capped<H(!new)>(net: Net<H>, n: nat, h: seq<H>, live: seq<nat>, stride: nat): (y: seq<H>)
    requires stride > 0 && Causal(net, stride)
    ensures |y| == |h|
  {
    if n == 0 then h
    else
      var a := net.attn(n - 1, Capped(net, n - 1, h, live, stride));
      Mixed(net, n - 1, a, Remapped(Routed(net, n - 1, a), live, stride))
  }

  ghost predicate SameLive<H>(h: seq<H>, h': seq<H>, live: seq<nat>, stride: nat)
    requires stride > 0
  {
    |h| == |h'| && forall r: nat | r < |h| && !Dead(live, stride, r) :: h[r] == h'[r]
  }

  lemma EarlierIsLive(live: seq<nat>, stride: nat, i: nat, r: nat)
    requires stride > 0 && i <= r && Req(stride, i) == Req(stride, r) && !Dead(live, stride, r)
    ensures !Dead(live, stride, i)
  {
    var q := r / stride;
    assert Pos(stride, i) == i - q * stride && Pos(stride, r) == r - q * stride;
  }

  lemma AttentionKeepsLive<H(!new)>(net: Net<H>, l: nat, h: seq<H>, h': seq<H>, live: seq<nat>, stride: nat)
    requires stride > 0 && Causal(net, stride) && SameLive(h, h', live, stride)
    ensures SameLive(net.attn(l, h), net.attn(l, h'), live, stride)
  {
    hide Req, Pos;
    forall r: nat | r < |h| && !Dead(live, stride, r) ensures net.attn(l, h)[r] == net.attn(l, h')[r] {
      forall i: nat | i <= r && Req(stride, i) == Req(stride, r) ensures h[i] == h'[i] {
        EarlierIsLive(live, stride, i, r);
      }
      assert AgreeUpTo(h, h', stride, r);
    }
  }

  lemma {:induction false} LiveRowsSame<H(!new)>(net: Net<H>, n: nat, h: seq<H>, live: seq<nat>, stride: nat)
    requires stride > 0 && Causal(net, stride)
    ensures SameLive(Capped(net, n, h, live, stride), Stock(net, n, h, stride), live, stride)
  {
    hide Dead, Anchor, Causal;
    if n > 0 {
      LiveRowsSame(net, n - 1, h, live, stride);
      AttentionKeepsLive(net, n - 1, Capped(net, n - 1, h, live, stride), Stock(net, n - 1, h, stride), live, stride);
    }
  }

  /** After any number of layers every row before its request's live length is what it is without the cap. */
  lemma LiveRowsUnchanged<H(!new)>(net: Net<H>, n: nat, h: seq<H>, live: seq<nat>, stride: nat, r: nat)
    requires stride > 0 && Causal(net, stride) && r < |h| && (r / stride < |live| ==> r % stride < live[r / stride])
    ensures Capped(net, n, h, live, stride)[r] == Stock(net, n, h, stride)[r]
  {
    hide Causal, Capped, Stock;
    LiveRowsSame(net, n, h, live, stride);
  }

  predicate Reads(t: seq<Routing>, r: nat, e: nat) { r < |t| && e in t[r].ids }

  /** The capped layer reads exactly what the live rows read without the cap. */
  lemma LiveExperts<H(!new)>(net: Net<H>, n: nat, h: seq<H>, live: seq<nat>, stride: nat, e: nat)
    requires stride > 0 && Causal(net, stride) && forall q | 0 <= q < |live| :: live[q] >= 1
    ensures
      var t := Routed(net, n, net.attn(n, Capped(net, n, h, live, stride)));
      var u := Routed(net, n, net.attn(n, Stock(net, n, h, stride)));
      (exists r: nat :: Reads(Remapped(t, live, stride), r, e))
      <==> (exists r: nat :: !Dead(live, stride, r) && Reads(u, r, e))
  {
    hide Causal, Capped, Stock, Req, Pos, Anchor;
    LiveRowsSame(net, n, h, live, stride);
    AttentionKeepsLive(net, n, Capped(net, n, h, live, stride), Stock(net, n, h, stride), live, stride);
    var t := Routed(net, n, net.attn(n, Capped(net, n, h, live, stride)));
    var u := Routed(net, n, net.attn(n, Stock(net, n, h, stride)));
    assert |t| == |u| && forall r: nat | r < |t| && !Dead(live, stride, r) :: t[r] == u[r];
    if r: nat :| Reads(Remapped(t, live, stride), r, e) {
      AnchorStays(live, stride, r);
      var a := Src(live, stride, r);
      assert !Dead(live, stride, a) && Reads(u, a, e);
    }
    if r: nat :| !Dead(live, stride, r) && Reads(u, r, e) {
      assert Reads(Remapped(t, live, stride), r, e);
    }
  }

  /** The experts layer n streams under the cap are exactly those that the rows before their request's live
      length read without it. */
  lemma NoExtraExperts<H(!new)>(net: Net<H>, n: nat, h: seq<H>, live: seq<nat>, stride: nat, e: nat)
    requires stride > 0 && Causal(net, stride) && forall q | 0 <= q < |live| :: live[q] >= 1
    ensures
      var t := Routed(net, n, net.attn(n, Capped(net, n, h, live, stride)));
      var u := Routed(net, n, net.attn(n, Stock(net, n, h, stride)));
      (exists r: nat :: Reads(Remapped(t, live, stride), r, e))
      <==> (exists r: nat :: Reads(u, r, e) && (r / stride < |live| ==> r % stride < live[r / stride]))
  {
    hide Causal, Capped, Stock, Routed, Remapped, Reads;
    LiveExperts(net, n, h, live, stride, e);
  }

  /* ----------------------------------------------------------------- what is then committed */

  /** Same drafts and cut; the target rows agree up to the cut and the draft rows before it. */
  ghost predicate AgreeLive(b: Block, c: Block, L: nat) {
    && Shaped(b) && Shaped(c) && b.V == c.V && b.x == c.x && L <= |b.x| && b.live == c.live == Some(L)
    && (forall i: nat | i <= L :: b.tp[i] == c.tp[i]) && (forall i: nat | i < L :: b.dp[i] == c.dp[i])
  }

  lemma {:induction false} WeightsAgree(b: Block, c: Block, L: nat, i: nat)
    requires AgreeLive(b, c, L) && i <= |b.x|
    ensures W(b, i) == W(c, i)
  {
    if i > 0 {
      WeightsAgree(b, c, L, i - 1);
      assert Ratio(b, i - 1) == Ratio(c, i - 1);
      SameRatio(b, c, i - 1);
    }
  }

  /** Block verification decides the same from the live rows, whatever the dead rows hold. */
  lemma DeadRowsUndecided(b: Block, c: Block, L: nat, i: nat)
    requires AgreeLive(b, c, L) && i <= |b.x|
    ensures i >= 1 ==> AcceptProb(b, i) == AcceptProb(c, i) && Alive(b, i - 1) == Alive(c, i - 1) == (i <= L)
    ensures i > L ==> AcceptProb(b, i) == 0.0
    ensures i <= L ==> forall y: nat :: CorrProb(b, i, y) == CorrProb(c, i, y)
  {
    if i <= L {
      WeightsAgree(b, c, L, i);
      assert Excess(b, i) == Excess(c, i);
    }
  }

  /** The same positions can be accepted, with the same probabilities, and what is corrected has the same law. */
  ghost predicate SameDecision(b: Block, c: Block, L: nat)
    requires Shaped(b) && Shaped(c) && b.x == c.x && L <= |b.x|
  {
    && (forall i: nat | 1 <= i <= |b.x| ::
          && AcceptProb(b, i) == AcceptProb(c, i) && Alive(b, i - 1) == Alive(c, i - 1) == (i <= L)
          && (i > L ==> AcceptProb(b, i) == 0.0))
    && forall i: nat, y: nat | i <= L :: CorrProb(b, i, y) == CorrProb(c, i, y)
  }

  lemma AgreeDecides(b: Block, c: Block, L: nat)
    requires AgreeLive(b, c, L)
    ensures SameDecision(b, c, L)
  {
    hide AcceptProb, CorrProb, Alive, AgreeLive;
    AgreeShaped(b, c, L);
    forall i: nat | 1 <= i <= |b.x|
      ensures AcceptProb(b, i) == AcceptProb(c, i) && Alive(b, i - 1) == Alive(c, i - 1) == (i <= L)
      ensures i > L ==> AcceptProb(b, i) == 0.0
    {
      DeadRowsUndecided(b, c, L, i);
    }
    forall i: nat, y: nat | i <= L ensures CorrProb(b, i, y) == CorrProb(c, i, y) { DeadRowsUndecided(b, c, L, i); }
  }

  lemma AgreeShaped(b: Block, c: Block, L: nat)
    requires AgreeLive(b, c, L)
    ensures Shaped(b) && Shaped(c) && b.x == c.x && L <= |b.x|
  {}

  /** The rows of request q. */
  function Rows<H>(h: seq<H>, stride: nat, q: nat): (rows: seq<H>)
    requires q * stride + stride <= |h|
    ensures |rows| == stride
  {
    h[q * stride..q * stride + stride]
  }

  /** A request's block, its target rows read off the final hidden states. */
  function BlockFrom<H>(law: H -> Dist, rows: seq<H>, V: nat, x: Tokens, dp: seq<Dist>, k: nat): (b: Block)
    requires |x| == |dp| >= 1 && |rows| == |x| + 1 && InVocab(V, x)
    ensures Shaped(b)
  {
    Block(V, x, seq(|rows|, i requires 0 <= i < |rows| => law(rows[i])), dp, Some(k))
  }

  lemma RowsAgree<H>(y: seq<H>, z: seq<H>, live: seq<nat>, stride: nat, q: nat, j: nat)
    requires stride > 0 && SameLive(y, z, live, stride) && q * stride + stride <= |y|
    requires q < |live| && j < live[q] <= stride
    ensures Rows(y, stride, q)[j] == Rows(z, stride, q)[j]
  {
    RowIs(stride, q, j);
    assert !Dead(live, stride, q * stride + j);
  }

  /** The capped step accepts and corrects exactly as a verify of the same k drafts with no rerouting. */
  lemma CappedStepExact<H(!new)>(net: Net<H>, n: nat, h: seq<H>, live: seq<nat>, stride: nat, law: H -> Dist,
          q: nat, V: nat, x: Tokens, dp: seq<Dist>)
    requires |x| == |dp| >= 1 && InVocab(V, x) && stride == |x| + 1 && Causal(net, stride)
    requires q < |live| && 1 <= live[q] <= stride && q * stride + stride <= |h|
    ensures SameDecision(
              BlockFrom(law, Rows(Capped(net, n, h, live, stride), stride, q), V, x, dp, live[q] - 1),
              BlockFrom(law, Rows(Stock(net, n, h, stride), stride, q), V, x, dp, live[q] - 1), live[q] - 1)
  {
    hide Causal, Capped, Stock, Rows, Dead;
    LiveRowsSame(net, n, h, live, stride);
    var y, z := Capped(net, n, h, live, stride), Stock(net, n, h, stride);
    forall j: nat | j < live[q] ensures Rows(y, stride, q)[j] == Rows(z, stride, q)[j] {
      RowsAgree(y, z, live, stride, q, j);
    }
    var b := BlockFrom(law, Rows(y, stride, q), V, x, dp, live[q] - 1);
    var c := BlockFrom(law, Rows(z, stride, q), V, x, dp, live[q] - 1);
    assert AgreeLive(b, c, live[q] - 1);
    hide SameDecision;
    AgreeDecides(b, c, live[q] - 1);
  }
}
