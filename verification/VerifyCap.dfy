/** Verify cap (adapter/verify_cap.py): each request verifies only its first k drafts.  The cut is a
    stopping rule, and the rows after it are rerouted in place to their anchor's experts. */
module VerifyCap {
  import opened Options
  import opened RealSums
  import BlockVerify
  import opened IntMath

  /* ------------------------------------------------------------------- how many drafts live */

  /** "conf:t", or one threshold per draft from the second on. */
  datatype Threshold = One(t: real) | Each(vals: seq<real>)

  datatype Policy = Fixed(k: nat) | Confidence(thr: Threshold, kmin: nat)

  predicate Parsed(p: Policy) { p.Confidence? && p.thr.Each? ==> |p.thr.vals| >= 2 }

  /** The per-draft list is [0] + vals, continued by its last value. */
  function ThrAt(thr: Threshold, i: nat): real
    requires thr.Each? ==> |thr.vals| >= 2
  {
    match thr
    case One(t) => t
    case Each(vals) => if i == 0 then 0.0 else if i <= |vals| then vals[i - 1] else vals[|vals| - 1]
  }

  function Unit(c: real): (u: real)
    ensures 0.0 <= u <= 1.0 && (0.0 <= c <= 1.0 ==> u == c) && (c < 0.0 ==> u == 0.0) && (c > 1.0 ==> u == 1.0)
  {
    BlockVerify.Max(0.0, BlockVerify.Min(c, 1.0))
  }

  /** torch.cumprod. */
  function RunningProducts(c: seq<real>): (r: seq<real>)
    ensures |r| == |c|
  {
    if c == [] then []
    else
      var r := RunningProducts(c[..|c| - 1]);
      r + [Times(if r == [] then 1.0 else r[|r| - 1], c[|c| - 1])]
  }

  function RunningAnds(m: seq<nat>): (r: seq<nat>)
    ensures |r| == |m|
  {
    if m == [] then []
    else
      var r := RunningAnds(m[..|m| - 1]);
      r + [(if r == [] then 1 else r[|r| - 1]) * m[|m| - 1]]
  }

  function Count(m: seq<nat>): nat { if m == [] then 0 else Count(m[..|m| - 1]) + m[|m| - 1] }

  function Clamp(n: nat, lo: nat, hi: nat): nat {
    var a := if n < lo then lo else n;
    if a > hi then hi else a
  }

  function Mask(thr: Threshold, conf: seq<real>): (m: seq<nat>)
    requires thr.Each? ==> |thr.vals| >= 2
    ensures |m| == |conf|
  {
    var cum := RunningProducts(seq(|conf|, i requires 0 <= i < |conf| => Unit(conf[i])));
    seq(|conf|, i requires 0 <= i < |conf| => if cum[i] >= ThrAt(thr, i) then 1 else 0)
  }

  /** Drafts verified, from one request's confidence row. */
  function LiveDrafts(thr: Threshold, kmin: nat, stride: nat, conf: seq<real>): nat
    requires thr.Each? ==> |thr.vals| >= 2
    requires stride >= 1
  {
    Clamp(Count(RunningAnds(Mask(thr, conf))), kmin, stride - 1)
  }

  /* -------------------------------------------------------------------- the state of a step */

  /** Verify rows are request-major, `stride` to a request. */
  function Req(stride: nat, r: nat): nat
    requires stride > 0
  {
    r / stride
  }

  function Pos(stride: nat, r: nat): nat
    requires stride > 0
  {
    r % stride
  }

  function Anchor(stride: nat, r: nat): nat
    requires stride > 0
  {
    Req(stride, r) * stride
  }

  predicate Dead(live: seq<nat>, stride: nat, r: nat)
    requires stride > 0
  {
    Req(stride, r) < |live| && Pos(stride, r) >= live[Req(stride, r)]
  }

  /** The row whose router output row r takes. */
  function Src(live: seq<nat>, stride: nat, r: nat): nat
    requires stride > 0
  {
    if Dead(live, stride, r) then Anchor(stride, r) else r
  }

  lemma RowIs(stride: nat, q: nat, i: nat)
    requires i < stride
    ensures Req(stride, q * stride + i) == q && Pos(stride, q * stride + i) == i
  {
    QuotientIs(q * stride + i, stride, q);
  }

  /** An anchor is its own source. */
  lemma AnchorStays(live: seq<nat>, stride: nat, r: nat)
    requires stride > 0
    ensures
      var a := Anchor(stride, r);
      a <= r && Src(live, stride, a) == a && Req(stride, a) == Req(stride, r) && Pos(stride, a) == 0
    ensures Src(live, stride, r) <= r
  {
    RowIs(stride, Req(stride, r), 0);
  }

  /** The persistent live buffer, and the source rows cached for one forward. */
  class Cap {
    const stride: nat
    const policy: Policy
    var live: array<nat>
    var src: Option<seq<nat>>

    ghost predicate Valid()
      reads this, live
    {
      && stride >= 1 && Parsed(policy)
      && forall q | 0 <= q < live.Length :: live[q] >= 1
    }

    /** The cached rows were computed from the live lengths now in the buffer. */
    ghost predicate Fresh()
      reads this, live
      requires stride >= 1
    {
      src.Some? ==> forall r: nat | r < |src.value| :: src.value[r] == Src(live[..], stride, r)
    }

    constructor (maxBs: nat, stride: nat, policy: Policy)
      requires stride >= 1 && Parsed(policy)
      ensures Valid() && Fresh() && fresh(live) && live.Length == maxBs && this.stride == stride
      ensures this.policy == policy
      ensures forall q | 0 <= q < maxBs :: live[q] == if policy.Fixed? then 1 + policy.k else stride
    {
      this.stride, this.policy, this.src := stride, policy, None;
      this.live := new nat[maxBs](i => if policy.Fixed? then 1 + policy.k else stride);
    }

    /** Requests of this step get their own cut; without a confidence policy or row nothing moves. */
    method SetLiveFromConfidence(confidence: Option<seq<seq<real>>>, bs: nat)
      requires Valid() && bs <= live.Length
      requires confidence.Some? ==> |confidence.value| == bs
      modifies live
      ensures Valid()
      ensures forall q | 0 <= q < live.Length :: live[q] ==
                if q < bs && confidence.Some? && policy.Confidence?
                then 1 + LiveDrafts(policy.thr, policy.kmin, stride, confidence.value[q]) else old(live[q])
    {
      if confidence.None? || policy.Fixed? { return; }
      var q := 0;
      while q < bs
        invariant q <= bs
        invariant forall j | 0 <= j < live.Length :: live[j] ==
                    if j < q then 1 + LiveDrafts(policy.thr, policy.kmin, stride, confidence.value[j]) else old(live[j])
      {
        live[q] := 1 + LiveDrafts(policy.thr, policy.kmin, stride, confidence.value[q]);
        q := q + 1;
      }
    }

    /** A model forward drops the cached rows, so what it then uses is fresh. */
    method BeginForward()
      requires stride >= 1
      modifies this`src
      ensures Fresh() && src == None
    {
      src := None;
    }

    method SrcRows(m: nat) returns (rows: seq<nat>)
      requires Valid() && Fresh() && m <= live.Length * stride
      modifies this`src
      ensures Valid() && Fresh()
      ensures |rows| == m && forall r: nat | r < m :: rows[r] == Src(live[..], stride, r)
    {
      if src.Some? && |src.value| == m { return src.value; }
      var lens := live[..];
      rows := seq(m, r requires 0 <= r < m => Src(lens, stride, r));
      src := Some(rows);
    }

    /** Dead rows take their anchor's weights and ids: in place by the kernel, else by index_select. */
    method RemapDeadRows(W: array2<real>, I: array2<nat>, inPlace: bool) returns (W': array2<real>, I': array2<nat>)
      requires Valid() && Fresh() && live.Length > 0 && W.Length0 == I.Length0 <= live.Length * stride
      requires W.Length1 == I.Length1
      modifies this`src, W, I
      ensures Valid() && Fresh() && (inPlace ==> W' == W && I' == I)
      ensures W'.Length0 == W.Length0 && I'.Length0 == I.Length0 && W'.Length1 == W.Length1 && I'.Length1 == I.Length1
      ensures forall r: nat, k: nat | r < W.Length0 && k < W.Length1 ::
                Src(live[..], stride, r) < W.Length0
                && W'[r, k] == old(W[Src(live[..], stride, r), k]) && I'[r, k] == old(I[Src(live[..], stride, r), k])
    {
      forall r: nat ensures Src(live[..], stride, r) <= r { AnchorStays(live[..], stride, r); }
      if inPlace {
        RemapKernel(W, I, live[..], stride);
        return W, I;
      }
      var rows := SrcRows(W.Length0);
      W' := new real[W.Length0, W.Length1](
        (r, k) requires 0 <= r < W.Length0 && 0 <= k < W.Length1 reads W => W[rows[r], k]);
      I' := new nat[I.Length0, I.Length1](
        (r, k) requires 0 <= r < I.Length0 && 0 <= k < I.Length1 reads I => I[rows[r], k]);
    }
  }

  /** The first bs lengths from the root, the others kept. */
  function Spliced(own: seq<nat>, root: seq<nat>, bs: nat): seq<nat>
    requires bs <= |own| && bs <= |root|
  {
    root[..bs] + own[bs..]
  }

  method CopyLens(from: array<nat>, to: array<nat>, bs: nat)
    requires from != to && bs <= from.Length && bs <= to.Length
    modifies to
    ensures to[..] == Spliced(old(to[..]), from[..], bs)
  {
    forall q | 0 <= q < bs { to[q] := from[q]; }
  }

  /** share_live: rank 0's live lengths of this step go to every rank, so a verify row never has two cuts. */
  method ShareLive(ranks: seq<Cap>, bs: nat)
    requires ranks != [] && forall r | 0 <= r < |ranks| :: ranks[r].Valid() && bs <= ranks[r].live.Length
    requires forall a, b | 0 <= a < b < |ranks| :: ranks[a].live != ranks[b].live
    modifies set r | 0 <= r < |ranks| :: ranks[r].live
    ensures forall r | 0 <= r < |ranks| ::
              ranks[r].Valid() && ranks[r].live[..] == Spliced(old(ranks[r].live[..]), old(ranks[0].live[..]), bs)
  {
    var root := ranks[0].live;
    ghost var lens := root[..];
    assert forall q | 0 <= q < |lens| :: lens[q] >= 1 by { assert ranks[0].Valid(); }
    assert lens == Spliced(lens, lens, bs);
    var k := 1;
    while k < |ranks|
      invariant 1 <= k <= |ranks| && root[..] == lens
      invariant forall r | 0 <= r < k :: ranks[r].live[..] == Spliced(old(ranks[r].live[..]), lens, bs)
      invariant forall r | k <= r < |ranks| :: ranks[r].live[..] == old(ranks[r].live[..])
    {
      CopyLens(root, ranks[k].live, bs);
      k := k + 1;
    }
    forall r | 0 <= r < |ranks| ensures ranks[r].Valid() {
      ghost var own := old(ranks[r].live[..]);
      assert forall q | 0 <= q < |own| :: own[q] >= 1 by { assert old(ranks[r].Valid()); }
      assert forall q | 0 <= q < ranks[r].live.Length :: ranks[r].live[q] == ranks[r].live[..][q];
    }
  }

  /** One program: for each of the K columns, every dead row loads its anchor's entries, then stores them. */
  method RemapKernel(W: array2<real>, I: array2<nat>, live: seq<nat>, stride: nat)
    requires stride > 0 && W.Length0 == I.Length0 && W.Length1 == I.Length1
    modifies W, I
    ensures forall r: nat, k: nat | r < W.Length0 && k < W.Length1 ::
              Src(live, stride, r) < W.Length0
              && W[r, k] == old(W[Src(live, stride, r), k]) && I[r, k] == old(I[Src(live, stride, r), k])
  {
    var m := W.Length0;
    forall r: nat ensures Src(live, stride, r) <= r && Anchor(stride, r) <= r { AnchorStays(live, stride, r); }
    hide Req, Pos, Anchor;
    var k := 0;
    while k < W.Length1
      invariant 0 <= k <= W.Length1
      invariant forall r: nat, j: nat | r < m && k <= j < W.Length1 ::
                  W[r, j] == old(W[r, j]) && I[r, j] == old(I[r, j])
      invariant forall r: nat, j: nat | r < m && j < k ::
                  W[r, j] == old(W[Src(live, stride, r), j]) && I[r, j] == old(I[Src(live, stride, r), j])
    {
      var w := seq(m, r requires 0 <= r < m reads W => W[Anchor(stride, r), k]);
      var i := seq(m, r requires 0 <= r < m reads I => I[Anchor(stride, r), k]);
      forall r: nat | r < m && Dead(live, stride, r) { W[r, k] := w[r]; }
      forall r: nat | r < m && Dead(live, stride, r) { I[r, k] := i[r]; }
      k := k + 1;
    }
  }
}
