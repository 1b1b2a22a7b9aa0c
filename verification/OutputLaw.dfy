/** The distribution of block verification's output, and why it is the target's.

    Drafts come from q, thresholds are beaten by independent uniform draws, the correction token is
    drawn from its normalised weights, and the stream continues by sampling from p. */
module OutputLaw {
  import opened Options
  import opened RealSums
  import opened BlockVerify

  /* ------------------------------------------------- one block: law of the accepted length */

  /** tau of an acceptance pattern: the last accepted position, 0 if none. */
  function LastTrue(ok: seq<bool>): nat {
    if ok == [] then 0 else if ok[|ok| - 1] then |ok| else LastTrue(ok[..|ok| - 1])
  }

  /** Total probability of the acceptance patterns that extend ok and end with tau = t.  Position
      i + 1 is accepted independently with probability a[i]; weight is the probability of ok. */
  function PatternMass(a: seq<real>, ok: seq<bool>, weight: real, t: nat): real
    requires |ok| <= |a|
    decreases |a| - |ok|
  {
    if |ok| == |a| then (if LastTrue(ok) == t then weight else 0.0)
    else
      PatternMass(a, ok + [true], Times(weight, a[|ok|]), t) +
      PatternMass(a, ok + [false], Times(weight, 1.0 - a[|ok|]), t)
  }


  function TauProb(a: seq<real>, t: nat): real { PatternMass(a, [], 1.0, t) }

  /** P(no position after k is accepted). */
  function NoneAfter(a: seq<real>, k: nat): real
    requires k <= |a|
    decreases |a| - k
  {
    if k == |a| then 1.0 else Times(1.0 - a[k], NoneAfter(a, k + 1))
  }

  lemma {:induction false} PatternDecided(a: seq<real>, ok: seq<bool>, w: real, t: nat)
    requires t <= |ok| <= |a|
    ensures PatternMass(a, ok, w, t) == if LastTrue(ok) == t then Times(w, NoneAfter(a, |ok|)) else 0.0
    decreases |a| - |ok|
  {
    hide Times;
    if |ok| == |a| {
      TimesUnits(w);
    } else {
      var yes, no, c := ok + [true], ok + [false], 1.0 - a[|ok|];
      assert no[..|ok|] == ok;
      PatternDecided(a, yes, Times(w, a[|ok|]), t);
      PatternDecided(a, no, Times(w, c), t);
      TimesLaws(w, c, NoneAfter(a, |no|));
    }
  }

  lemma {:induction false} PatternPending(a: seq<real>, ok: seq<bool>, w: real, t: nat)
    requires |ok| < t <= |a|
    ensures PatternMass(a, ok, w, t) == Times(w, Times(a[t - 1], NoneAfter(a, t)))
    decreases |a| - |ok|
  {
    hide Times;
    var yes, no, c := ok + [true], ok + [false], a[|ok|];
    if t == |ok| + 1 {
      assert no[..|ok|] == ok;
      LastTrueBound(ok);
      PatternDecided(a, yes, Times(w, c), t);
      PatternDecided(a, no, Times(w, 1.0 - c), t);
      TimesLaws(w, c, NoneAfter(a, t));
    } else {
      PatternPending(a, yes, Times(w, c), t);
      PatternPending(a, no, Times(w, 1.0 - c), t);
      Split(w, c, Times(a[t - 1], NoneAfter(a, t)));
    }
  }

  lemma Split(w: real, c: real, r: real)
    ensures Times(Times(w, c), r) + Times(Times(w, 1.0 - c), r) == Times(w, r)
  {
    TimesLaws(Times(w, c), Times(w, 1.0 - c), r);
  }

  lemma {:induction false} LastTrueBound(ok: seq<bool>)
    ensures LastTrue(ok) <= |ok|
  {
    if ok != [] { LastTrueBound(ok[..|ok| - 1]); }
  }

  /** tau = t exactly when t is accepted and nothing after it is. */
  lemma TauLaw(a: seq<real>, t: nat)
    requires t <= |a|
    ensures TauProb(a, t) == Times(if t == 0 then 1.0 else a[t - 1], NoneAfter(a, t))
  {
    hide Times;
    TimesUnits(if t == 0 then NoneAfter(a, 0) else Times(a[t - 1], NoneAfter(a, t)));
    if t == 0 { PatternDecided(a, [], 1.0, t); } else { PatternPending(a, [], 1.0, t); }
  }

  /** The pattern function is the accepted length the code returns. */
  lemma {:induction false} LastTrueIsAcceptedLength(ok: seq<bool>, t: nat)
    requires t <= |ok| && (t > 0 ==> ok[t - 1]) && forall i | t <= i < |ok| :: !ok[i]
    ensures LastTrue(ok) == t
  {
    if t < |ok| { LastTrueIsAcceptedLength(ok[..|ok| - 1], t); }
  }

  /** The part of E[K(tau)] on tau > k. */
  function After(a: seq<real>, k: nat, K: nat -> real): real
    requires k <= |a|
    decreases |a| - k
  {
    if k == |a| then 0.0 else Times(Times(a[k], K(k + 1)), NoneAfter(a, k + 1)) + After(a, k + 1, K)
  }

  function TauExp(a: seq<real>, K: nat -> real): real {
    Sum(|a| + 1, (t: nat) => Times(TauProb(a, t), K(t)))
  }

  lemma TauExpClosed(a: seq<real>, K: nat -> real)
    ensures TauExp(a, K) == Times(K(0), NoneAfter(a, 0)) + After(a, 0, K)
  {
    hide Times, TauProb;
    var F := (t: nat) => Times(TauProb(a, t), K(t));
    TauLaw(a, 0);
    TimesUnits(NoneAfter(a, 0));
    TimesLaws(NoneAfter(a, 0), K(0), 1.0);
    assert Sum(1, F) == Sum(0, F) + F(0);
    for k := 0 to |a|
      invariant Sum(k + 1, F) + After(a, k, K) == Times(K(0), NoneAfter(a, 0)) + After(a, 0, K)
    {
      TauLaw(a, k + 1);
      TimesLaws(a[k], NoneAfter(a, k + 1), K(k + 1));
      assert Sum(k + 2, F) == Sum(k + 1, F) + F(k + 1);
    }
  }

  lemma {:induction false} TotalAfter(a: seq<real>, k: nat, K: nat -> real)
    requires k <= |a|
    requires forall t: nat | t <= |a| :: K(t) == 1.0
    ensures NoneAfter(a, k) + After(a, k, K) == 1.0
    decreases |a| - k
  {
    hide Times;
    if k < |a| {
      TotalAfter(a, k + 1, K);
      TimesUnits(a[k]);
      TimesUnits(NoneAfter(a, k + 1));
      TimesLaws(1.0 - a[k], a[k], NoneAfter(a, k + 1));
    }
  }

  /* ------------------------------------------------------------ the whole random experiment */

  function AcceptProbs(b: Block): seq<real>
    requires Shaped(b)
  {
    seq(|b.x|, i requires 0 <= i < |b.x| => AcceptProb(b, i + 1))
  }

  /** prod_{k <= i < |s|} p(s[..i])(s[i]). */
  function Chain(p: Kernel, s: Tokens, k: nat): real
    requires k <= |s|
    decreases |s| - k
  {
    if k == |s| then 1.0 else Times(p(s[..k])(s[k]), Chain(p, s, k + 1))
  }

  /** P(the stream starts with s), once its first tokens are o and the rest is sampled from p. */
  function Continue(p: Kernel, o: Tokens, s: Tokens): real {
    if |s| <= |o| then (if s <= o then 1.0 else 0.0)
    else if o <= s then Chain(p, s, |o|) else 0.0
  }

  /** P(the stream starts with s | accepted length t). */
  function EmitAt(b: Block, p: Kernel, s: Tokens, t: nat): real
    requires Shaped(b) && t <= |b.x|
  {
    Sum(b.V, (y: nat) => Times(CorrProb(b, t, y), Continue(p, b.x[..t] + [y], s)))
  }

  function EmitValue(b: Block, p: Kernel, s: Tokens): nat -> real
    requires Shaped(b)
  {
    (t: nat) => if t <= |b.x| then EmitAt(b, p, s, t) else 0.0
  }

  /** Vocabulary, block length, target and draft kernels, and the rule that stops verification after
      a prefix of the drafts (None: every draft is verified). */
  datatype Setup = Setup(V: nat, g: nat, p: Kernel, q: Kernel, stop: Option<Tokens -> bool>)

  /** First position at which the rule stops, looking only at the drafts before it. */
  function LiveFrom(stop: Tokens -> bool, x: Tokens, i: nat): (n: nat)
    requires i <= |x|
    ensures i <= n <= |x|
    ensures n < |x| ==> stop(x[..n])
    ensures forall j | i <= j < n :: !stop(x[..j])
    decreases |x| - i
  {
    if i == |x| || stop(x[..i]) then i else LiveFrom(stop, x, i + 1)
  }

  predicate InVocab(V: nat, x: Tokens) { forall i | 0 <= i < |x| :: x[i] < V }

  /** What block_accept_probs is given when the drafts are x. */
  function BlockOf(m: Setup, x: Tokens): (b: Block)
    requires |x| >= 1 && InVocab(m.V, x)
    ensures Shaped(b) && b.x == x
  {
    Block(m.V, x,
          seq(|x| + 1, i requires 0 <= i <= |x| => m.p(x[..i])),
          seq(|x|, i requires 0 <= i < |x| => m.q(x[..i])),
          if m.stop.None? then None else Some(LiveFrom(m.stop.value, x, 0)))
  }

  /** Expectation of f over the n drafts that follow pre. */
  function DraftExp(m: Setup, pre: Tokens, n: nat, f: Tokens -> real): real
    decreases n
  {
    if n == 0 then f(pre) else Sum(m.V, (y: nat) => Times(m.q(pre)(y), DraftExp(m, pre + [y], n - 1, f)))
  }

  /** P(the stream starts with s | drafts x). */
  function EmitGiven(m: Setup, s: Tokens): Tokens -> real {
    (x: Tokens) =>
      if |x| >= 1 && InVocab(m.V, x) then TauExp(AcceptProbs(BlockOf(m, x)), EmitValue(BlockOf(m, x), m.p, s)) else 0.0
  }

  /** P(the stream starts with s): drafts, acceptance, correction and continuation together. */
  function Emit(m: Setup, s: Tokens): real {
    DraftExp(m, [], m.g, EmitGiven(m, s))
  }

  ghost predicate IsKernel(V: nat, k: Kernel) {
    && (forall pre: Tokens, y: nat | y < V :: k(pre)(y) >= 0.0)
    && (forall pre: Tokens :: Sum(V, k(pre)) == 1.0)
  }
}
