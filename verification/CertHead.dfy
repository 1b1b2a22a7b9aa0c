/** The certified LM head (adapter/cert_head.py): a cheap screen bounds every logit, only the tiles
    that can hold the maximum are computed, and the argmax over all ranks must not change. */
module CertHead {

  /** A logit.  The order is the one argmax uses: NaN is largest. */
  datatype Val = NegInf | Fin(r: real) | PosInf | NaN

  predicate Le(a: Val, b: Val) {
    match (a, b)
    case (NegInf, _) => true
    case (_, NaN) => true
    case (Fin(x), Fin(y)) => x <= y
    case (Fin(_), PosInf) => true
    case (PosInf, PosInf) => true
    case _ => false
  }

  predicate Lt(a: Val, b: Val) { !Le(b, a) }

  /** First index of a maximum. */
  function Argmax(row: seq<Val>): (k: nat)
    requires row != []
    ensures k < |row| && IsArgmax(row, k)
  {
    if |row| == 1 then 0
    else
      var k := Argmax(row[..|row| - 1]);
      var last := row[|row| - 1];
      if Lt(row[k], last) then |row| - 1 else k
  }

  ghost predicate IsArgmax(row: seq<Val>, k: nat) {
    && k < |row|
    && (forall u | 0 <= u < |row| :: Le(row[u], row[k]))
    && (forall u | 0 <= u < k :: Lt(row[u], row[k]))
  }

  /** In terms of the logits themselves: no entry is a larger real, infinite or NaN where the chosen one is not,
      and no earlier entry is equal to it. */
  lemma ArgmaxIsLargest(row: seq<Val>, u: nat)
    requires row != [] && u < |row|
    ensures
      var best := row[Argmax(row)];
      && (row[u].Fin? && best.Fin? ==> row[u].r <= best.r)
      && (row[u] == NaN ==> best == NaN) && (row[u] == PosInf ==> best == PosInf || best == NaN)
      && (best == NegInf ==> row[u] == NegInf) && (u < Argmax(row) ==> row[u] != best)
  {
    assert IsArgmax(row, Argmax(row));
  }

  lemma ArgmaxUnique(row: seq<Val>, j: nat, k: nat)
    requires IsArgmax(row, j) && IsArgmax(row, k)
    ensures j == k
  {
    assert Le(row[j], row[k]) && Le(row[k], row[j]);
  }

  /* -------------------------------------------------------------- screen, tiles and masking */

  /** One rank's shard for one step: stock logits, screen bounds and non-finite flags of every row,
      and the vocabulary id of its first token. */
  datatype Shard = Shard(V: nat, vstart: nat, logits: seq<seq<Val>>, lo: seq<seq<Val>>, hi: seq<seq<Val>>,
          bad: seq<bool>)

  predicate Shaped(sh: Shard, M: nat) {
    && |sh.logits| == |sh.lo| == |sh.hi| == |sh.bad| == M
    && forall m | 0 <= m < M :: |sh.logits[m]| == |sh.lo[m]| == |sh.hi[m]| == sh.V
  }

  /** A stop id never raises the threshold and is always computed. */
  function ScreenLo(sh: Shard, stops: set<int>, m: nat, u: nat): Val
    requires m < |sh.lo| && u < |sh.lo[m]|
  {
    if sh.vstart + u in stops then NegInf else sh.lo[m][u]
  }

  function ScreenHi(sh: Shard, stops: set<int>, m: nat, u: nat): Val
    requires m < |sh.hi| && u < |sh.hi[m]|
  {
    if sh.vstart + u in stops then PosInf else sh.hi[m][u]
  }

  /** Row threshold over tokens 0 .. n - 1: the largest lower bound, -inf to start with. */
  function Threshold(sh: Shard, stops: set<int>, m: nat, n: nat): Val
    requires m < |sh.lo| && n <= |sh.lo[m]|
  {
    if n == 0 then NegInf
    else
      var t := Threshold(sh, stops, m, n - 1);
      if Le(t, ScreenLo(sh, stops, m, n - 1)) then ScreenLo(sh, stops, m, n - 1) else t
  }

  predicate Candidate(sh: Shard, stops: set<int>, m: nat, u: nat)
    requires m < |sh.lo| == |sh.hi| && u < |sh.lo[m]| == |sh.hi[m]| && |sh.lo[m]| == sh.V
  {
    Le(Threshold(sh, stops, m, sh.V), ScreenHi(sh, stops, m, u))
  }

  /** The refine kernel computes tile t. */
  ghost predicate Needed(sh: Shard, stops: set<int>, M: nat, full: bool, bv: nat, t: nat)
    requires Shaped(sh, M) && bv > 0
  {
    || full
    || (exists m | 0 <= m < M :: sh.bad[m])
    || (exists m: nat, u: nat | m < M && u < sh.V && u / bv == t :: Candidate(sh, stops, m, u))
  }

  /** A token is a candidate exactly if it is a stop id or no other token's lower bound is above its upper bound. */
  lemma CandidateIff(sh: Shard, stops: set<int>, M: nat, m: nat, u: nat)
    requires Shaped(sh, M) && m < M && u < sh.V && forall v: nat | v < sh.V :: !sh.lo[m][v].NaN?
    ensures Candidate(sh, stops, m, u) <==>
              sh.vstart + u in stops
              || forall v: nat | v < sh.V && sh.vstart + v !in stops :: Le(sh.lo[m][v], sh.hi[m][u])
  {
    var h := ScreenHi(sh, stops, m, u);
    ThresholdBelow(sh, stops, m, sh.V, h);
    forall v: nat | v < sh.V
      ensures ScreenLo(sh, stops, m, v) == if sh.vstart + v in stops then NegInf else sh.lo[m][v]
    {}
    if !Candidate(sh, stops, m, u) {
      var v: nat :| v < sh.V && !Le(ScreenLo(sh, stops, m, v), h);
    } else {
      forall v: nat | v < sh.V && sh.vstart + v !in stops ensures Le(sh.lo[m][v], h) {
        assert Le(ScreenLo(sh, stops, m, v), h);
      }
    }
  }

  /** Token u may be row m's largest, as far as the bounds tell, or is a stop id. */
  ghost predicate MayWin(sh: Shard, stops: set<int>, m: nat, u: nat)
    requires m < |sh.lo| == |sh.hi| && |sh.lo[m]| == |sh.hi[m]| == sh.V && u < sh.V
  {
    || sh.vstart + u in stops
    || forall v: nat | v < sh.V && sh.vstart + v !in stops :: Le(sh.lo[m][v], sh.hi[m][u])
  }

  /** In a step with no bad row the kernel computes exactly the tiles with a token that may win some row. */
  lemma NeededIff(sh: Shard, stops: set<int>, M: nat, bv: nat, t: nat)
    requires Shaped(sh, M) && bv > 0 && forall m | 0 <= m < M :: !sh.bad[m]
    requires forall m: nat, u: nat | m < M && u < sh.V :: !sh.lo[m][u].NaN?
    ensures Needed(sh, stops, M, false, bv, t) <==>
              exists m: nat, u: nat :: m < M && u < sh.V && u / bv == t && MayWin(sh, stops, m, u)
  {
    hide Candidate;
    forall m: nat, u: nat | m < M && u < sh.V ensures Candidate(sh, stops, m, u) <==> MayWin(sh, stops, m, u) {
      forall v: nat | v < sh.V ensures !sh.lo[m][v].NaN? {}
      CandidateIff(sh, stops, M, m, u);
    }
    hide MayWin;
  }

  lemma {:induction false} ThresholdBelow(sh: Shard, stops: set<int>, m: nat, n: nat, h: Val)
    requires m < |sh.lo| && n <= |sh.lo[m]|
    ensures Le(Threshold(sh, stops, m, n), h) <==> forall v: nat | v < n :: Le(ScreenLo(sh, stops, m, v), h)
  {
    if n > 0 { ThresholdBelow(sh, stops, m, n - 1, h); }
  }

  /** Its output row: exact logits on computed tiles, -inf elsewhere. */
  ghost function Masked(sh: Shard, stops: set<int>, M: nat, full: bool, bv: nat, m: nat): (r: seq<Val>)
    requires Shaped(sh, M) && bv > 0 && m < M
    ensures |r| == sh.V
  {
    seq(sh.V, u requires 0 <= u < sh.V => if Needed(sh, stops, M, full, bv, u / bv) then sh.logits[m][u] else NegInf)
  }

  /** The screen's promise: bounds are never NaN, and every non-stop logit of a finite step lies
      between its bounds; an infinite upper bound promises nothing and forces the tile. */
  ghost predicate Certified(sh: Shard, stops: set<int>, M: nat)
    requires Shaped(sh, M)
  {
    (forall m | 0 <= m < M :: !sh.bad[m]) ==>
      && (forall m: nat, u: nat | m < M && u < sh.V :: !sh.lo[m][u].NaN? && !sh.hi[m][u].NaN?)
      && (forall m: nat, u: nat | m < M && u < sh.V && sh.vstart + u !in stops ::
            Le(sh.lo[m][u], sh.logits[m][u]) && (sh.hi[m][u].PosInf? || Le(sh.logits[m][u], sh.hi[m][u])))
  }

  /** Ids in `kill` are set to -inf after the head (min_new_tokens). */
  function PostMask(row: seq<Val>, vstart: nat, kill: set<int>): (r: seq<Val>)
    ensures |r| == |row|
  {
    seq(|row|, u requires 0 <= u < |row| => if vstart + u in kill then NegInf else row[u])
  }

  ghost predicate Within(a: set<int>, b: set<int>) { forall x | x in a :: x in b }

  /* ----------------------------------------------------------------------------- the proof */

  /** b is a with some entries lowered to -inf, each below an entry that was kept. */
  ghost predicate Dominated(a: seq<Val>, b: seq<Val>) {
    && |a| == |b|
    && forall u | 0 <= u < |a| ::
         b[u] == a[u] || (b[u] == NegInf && exists v | 0 <= v < |a| :: b[v] == a[v] && Lt(a[u], a[v]))
  }

  lemma DominatedArgmax(a: seq<Val>, b: seq<Val>)
    requires Dominated(a, b) && a != []
    ensures Argmax(a) == Argmax(b)
  {
    var k := Argmax(a);
    assert IsArgmax(b, k);
    ArgmaxUnique(b, k, Argmax(b));
  }

  lemma DominatedConcat(a: seq<Val>, b: seq<Val>, c: seq<Val>, d: seq<Val>)
    requires Dominated(a, b) && Dominated(c, d)
    ensures Dominated(a + c, b + d)
  {
    var x, y := a + c, b + d;
    forall u | 0 <= u < |x|
      ensures y[u] == x[u] || (y[u] == NegInf && exists v | 0 <= v < |x| :: y[v] == x[v] && Lt(x[u], x[v]))
    {
      if u < |a| && b[u] != a[u] {
        var v :| 0 <= v < |a| && b[v] == a[v] && Lt(a[u], a[v]);
        assert y[v] == x[v] && Lt(x[u], x[v]);
      } else if u >= |a| && d[u - |a|] != c[u - |a|] {
        var v :| 0 <= v < |c| && d[v] == c[v] && Lt(c[u - |a|], c[v]);
        assert y[|a| + v] == x[|a| + v] && Lt(x[u], x[|a| + v]);
      }
    }
  }

  /** The threshold is -inf or some token's lower bound, and no lower bound exceeds it. */
  lemma {:induction false} ThresholdAttained(sh: Shard, stops: set<int>, m: nat, n: nat)
    requires m < |sh.lo| && n <= |sh.lo[m]|
    ensures var t := Threshold(sh, stops, m, n);
            t == NegInf || exists v: nat | v < n :: ScreenLo(sh, stops, m, v) == t
    ensures forall v: nat | v < n :: Le(ScreenLo(sh, stops, m, v), Threshold(sh, stops, m, n))
  {
    if n > 0 { ThresholdAttained(sh, stops, m, n - 1); }
  }

  /** On one rank, a token whose tile is skipped is strictly below a computed, unmasked token. */
  lemma ShardDominated(sh: Shard, stops: set<int>, M: nat, full: bool, bv: nat, m: nat, kill: set<int>)
    requires Shaped(sh, M) && bv > 0 && m < M && Certified(sh, stops, M) && Within(kill, stops)
    ensures Dominated(PostMask(sh.logits[m], sh.vstart, kill),
                      PostMask(Masked(sh, stops, M, full, bv, m), sh.vstart, kill))
  {
    var a := PostMask(sh.logits[m], sh.vstart, kill);
    var b := PostMask(Masked(sh, stops, M, full, bv, m), sh.vstart, kill);
    forall u: nat | u < sh.V && b[u] != a[u]
      ensures b[u] == NegInf && exists v | 0 <= v < |a| :: b[v] == a[v] && Lt(a[u], a[v])
    {
      var v := SkippedBelow(sh, stops, M, full, bv, m, u);
      assert sh.vstart + v !in kill && a[v] == sh.logits[m][v] && b[v] == a[v];
    }
  }

  lemma SkippedBelow(sh: Shard, stops: set<int>, M: nat, full: bool, bv: nat, m: nat, u: nat) returns (v: nat)
    requires Shaped(sh, M) && bv > 0 && m < M && u < sh.V && Certified(sh, stops, M)
    requires !Needed(sh, stops, M, full, bv, u / bv)
    ensures v < sh.V && sh.vstart + v !in stops && Needed(sh, stops, M, full, bv, v / bv)
    ensures Lt(sh.logits[m][u], sh.logits[m][v])
  {
    var T := Threshold(sh, stops, m, sh.V);
    ThresholdAttained(sh, stops, m, sh.V);
    assert !T.NaN?;
    assert !Candidate(sh, stops, m, u) && sh.vstart + u !in stops;
    v :| v < sh.V && ScreenLo(sh, stops, m, v) == T;
    assert Candidate(sh, stops, m, v);
  }

  /** The vocabulary shards follow each other. */
  predicate Laid(shs: seq<Shard>, M: nat, vstart: nat) {
    shs == [] || (Shaped(shs[0], M) && shs[0].vstart == vstart && Laid(shs[1..], M, vstart + shs[0].V))
  }

  function Stock(shs: seq<Shard>, M: nat, vstart: nat, m: nat): seq<Val>
    requires Laid(shs, M, vstart) && m < M
  {
    if shs == [] then [] else shs[0].logits[m] + Stock(shs[1..], M, vstart + shs[0].V, m)
  }

  /** All-gather of every rank's refine output. */
  ghost function Gathered(shs: seq<Shard>, stops: set<int>, M: nat, full: bool, bv: nat, vstart: nat, m: nat): seq<Val>
    requires Laid(shs, M, vstart) && m < M && bv > 0
  {
    if shs == [] then []
    else Masked(shs[0], stops, M, full, bv, m) + Gathered(shs[1..], stops, M, full, bv, vstart + shs[0].V, m)
  }

  lemma PostMaskConcat(a: seq<Val>, b: seq<Val>, vstart: nat, kill: set<int>)
    ensures PostMask(a + b, vstart, kill) == PostMask(a, vstart, kill) + PostMask(b, vstart + |a|, kill)
  {}

  ghost predicate AllCertified(shs: seq<Shard>, stops: set<int>, M: nat) {
    forall sh | sh in shs :: Shaped(sh, M) && Certified(sh, stops, M)
  }

  lemma CertifiedParts(shs: seq<Shard>, stops: set<int>, M: nat)
    requires AllCertified(shs, stops, M) && shs != []
    ensures Shaped(shs[0], M) && Certified(shs[0], stops, M) && AllCertified(shs[1..], stops, M)
  {
    hide Shaped, Certified;
    assert shs[0] in shs && forall sh | sh in shs[1..] :: sh in shs;
  }

  lemma NothingDominated(vstart: nat, kill: set<int>)
    ensures Dominated(PostMask([], vstart, kill), PostMask([], vstart, kill))
  {}

  lemma LaidParts(shs: seq<Shard>, M: nat, vstart: nat, m: nat)
    requires Laid(shs, M, vstart) && shs != [] && m < M
    ensures Shaped(shs[0], M) && shs[0].vstart == vstart && Laid(shs[1..], M, vstart + shs[0].V)
    ensures |shs[0].logits| == M && |shs[0].logits[m]| == shs[0].V
  {}

  lemma MaskedLength(sh: Shard, stops: set<int>, M: nat, full: bool, bv: nat, m: nat)
    requires Shaped(sh, M) && m < M && bv > 0
    ensures |Masked(sh, stops, M, full, bv, m)| == sh.V
  {}

  lemma {:induction false} GatheredDominated(shs: seq<Shard>, stops: set<int>, M: nat, full: bool, bv: nat,
          vstart: nat, m: nat, kill: set<int>)
    requires Laid(shs, M, vstart) && m < M && bv > 0 && Within(kill, stops) && AllCertified(shs, stops, M)
    ensures Dominated(PostMask(Stock(shs, M, vstart, m), vstart, kill),
                      PostMask(Gathered(shs, stops, M, full, bv, vstart, m), vstart, kill))
  {
    hide Dominated, Masked, PostMask, Certified, AllCertified, Within, Shaped, Laid;
    if shs == [] {
      NothingDominated(vstart, kill);
    } else {
      LaidParts(shs, M, vstart, m);
      CertifiedParts(shs, stops, M);
      var sh, rest, next := shs[0], shs[1..], vstart + shs[0].V;
      MaskedLength(sh, stops, M, full, bv, m);
      ShardDominated(sh, stops, M, full, bv, m, kill);
      GatheredDominated(rest, stops, M, full, bv, next, m, kill);
      var a, c := sh.logits[m], Stock(rest, M, next, m);
      var b, d := Masked(sh, stops, M, full, bv, m), Gathered(rest, stops, M, full, bv, next, m);
      PostMaskConcat(a, c, vstart, kill);
      PostMaskConcat(b, d, vstart, kill);
      DominatedConcat(PostMask(a, vstart, kill), PostMask(b, vstart, kill), PostMask(c, next, kill),
                      PostMask(d, next, kill));
    }
  }

  /** For any ranks, rows, tile width and stop slots, any step with or without non-finite rows, and
      any later masking of stop ids: the first-index argmax is the stock one. */
  lemma CertifiedArgmax(shs: seq<Shard>, stops: set<int>, M: nat, full: bool, bv: nat, m: nat, kill: set<int>)
    requires Laid(shs, M, 0) && m < M && bv > 0 && Within(kill, stops) && Stock(shs, M, 0, m) != []
    requires AllCertified(shs, stops, M)
    ensures var stock := PostMask(Stock(shs, M, 0, m), 0, kill);
            var got := PostMask(Gathered(shs, stops, M, full, bv, 0, m), 0, kill);
            |got| == |stock| && Argmax(got) == Argmax(stock) && got[Argmax(got)] == stock[Argmax(got)]
  {
    GatheredDominated(shs, stops, M, full, bv, 0, m, kill);
    var a := PostMask(Stock(shs, M, 0, m), 0, kill);
    var b := PostMask(Gathered(shs, stops, M, full, bv, 0, m), 0, kill);
    DominatedArgmax(a, b);
    var k := Argmax(a);
    assert IsArgmax(a, k);
  }

  /** In full mode the gathered logits are the stock ones, whatever the screen buffers hold. */
  lemma {:induction false} FullIsStock(shs: seq<Shard>, stops: set<int>, M: nat, bv: nat, vstart: nat, m: nat)
    requires Laid(shs, M, vstart) && m < M && bv > 0
    ensures Gathered(shs, stops, M, true, bv, vstart, m) == Stock(shs, M, vstart, m)
  {
    if shs != [] {
      assert Masked(shs[0], stops, M, true, bv, m) == shs[0].logits[m];
      FullIsStock(shs[1..], stops, M, bv, vstart + shs[0].V, m);
    }
  }
}
