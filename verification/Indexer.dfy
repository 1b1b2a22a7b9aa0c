/** The dense prefill indexer (adapter/indexer_chunked_v3.py, adapter/spark_prefill_dense.py): top-k
    columns per query row, scored in row chunks under a byte budget, and optionally split by rows over
    the ranks with only integer ids gathered. */
module Indexer {
  import opened IntMath

  datatype Score = NegInf | Val(v: real) | PosInf

  /** One request of the batch: `count` query rows over `width` compressed keys. */
  datatype Request = Request(width: nat, count: nat)

  /** A source layer publishes candidate blocks, a consumer masks with them. */
  datatype Role = Source | Consumer(masks: seq<seq<seq<bool>>>) | Plain

  /** The scorer leaves anything (`noise`) past a row's length.  `topk` and `maskTopk` see the first
      len columns of a row; `topBlocks` ranks block scores. */
  datatype Engine = Engine(
    score: (nat, nat) -> Score, noise: (nat, nat, nat) -> Score, lens: seq<nat>, ks: seq<nat>,
    topk: (seq<Score>, nat) -> seq<int>, maskTopk: (seq<Score>, seq<int>, nat) -> seq<int>,
    topBlocks: (seq<Score>, nat) -> seq<nat>,
    indexTopk: nat, topkBlocks: nat, blockSize: nat)

  /** A row that selects nothing. */
  function Fill(n: nat): (r: seq<int>)
    ensures |r| == n && forall i | 0 <= i < n :: r[i] == -1
  {
    seq(n, i => -1)
  }

  ghost predicate Sane(e: Engine) {
    && e.blockSize >= 1 && |e.lens| == |e.ks|
    && (forall s: seq<Score>, k: nat :: |e.topk(s, k)| == e.indexTopk)
    && (forall s: seq<Score>, t: seq<int>, k: nat :: |e.maskTopk(s, t, k)| == |t|)
    && (forall k: nat :: e.topk([], k) == Fill(e.indexTopk))
    && (forall t: seq<int>, k: nat :: e.maskTopk([], t, k) == t)
    && (forall s: seq<Score>, n: nat | n <= |s| ::
          |e.topBlocks(s, n)| == n && forall i | 0 <= i < n :: e.topBlocks(s, n)[i] < |s|)
  }

  /* ------------------------------------------------------------------- requests and rows */

  function Starts(reqs: seq<Request>, b: nat): nat
    requires b <= |reqs|
  {
    if b == 0 then 0 else Starts(reqs, b - 1) + reqs[b - 1].count
  }

  predicate Of(reqs: seq<Request>, b: nat, r: nat) { b < |reqs| && Starts(reqs, b) <= r < Starts(reqs, b + 1) }

  lemma {:induction false} StartsMono(reqs: seq<Request>, a: nat, b: nat)
    requires a <= b <= |reqs|
    ensures Starts(reqs, a) <= Starts(reqs, b)
  {
    if a < b { StartsMono(reqs, a, b - 1); }
  }

  lemma OfUnique(reqs: seq<Request>, a: nat, b: nat, r: nat)
    requires Of(reqs, a, r) && Of(reqs, b, r)
    ensures a == b
  {
    if a < b { StartsMono(reqs, a + 1, b); }
    if b < a { StartsMono(reqs, b + 1, a); }
  }

  /** The request a row belongs to. */
  function RequestOf(reqs: seq<Request>, r: nat, n: nat): (b: nat)
    requires n <= |reqs| && r < Starts(reqs, n)
    ensures Of(reqs, b, r)
  {
    if r >= Starts(reqs, n - 1) then n - 1 else RequestOf(reqs, r, n - 1)
  }

  /** Rows, lengths and published masks fit together. */
  ghost predicate Fits(e: Engine, role: Role, reqs: seq<Request>) {
    && Sane(e) && Starts(reqs, |reqs|) == |e.lens|
    && (forall b: nat, r: nat | Of(reqs, b, r) && r < |e.lens| :: e.lens[r] <= reqs[b].width)
    && (role.Consumer? ==> |role.masks| == |reqs| && forall b: nat | b < |reqs| && reqs[b].width > 0 ::
          |role.masks[b]| == reqs[b].count && forall i: nat | i < reqs[b].count :: |role.masks[b][i]| == reqs[b].width)
  }

  predicate Masked(role: Role, reqs: seq<Request>, b: nat, r: nat, j: nat)
    requires Of(reqs, b, r)
  {
    && role.Consumer? && b < |role.masks| && r - Starts(reqs, b) < |role.masks[b]|
    && j < |role.masks[b][r - Starts(reqs, b)]| && !role.masks[b][r - Starts(reqs, b)][j]
  }

  /* ------------------------------------------------- what one row selects, on its own */

  function Wanted(e: Engine, role: Role, reqs: seq<Request>, b: nat, r: nat): (s: seq<Score>)
    requires r < |e.lens| && Of(reqs, b, r)
    ensures |s| == e.lens[r]
  {
    seq(e.lens[r], j requires 0 <= j < e.lens[r] => if Masked(role, reqs, b, r, j) then NegInf else e.score(r, j))
  }

  /** The row's top-k ids: no chunk, no partition, no other row. */
  function Selected(e: Engine, role: Role, reqs: seq<Request>, b: nat, r: nat): seq<int>
    requires r < |e.lens| == |e.ks| && Of(reqs, b, r)
  {
    var s := Wanted(e, role, reqs, b, r);
    var t := e.topk(s, e.ks[r]);
    if role.Consumer? then e.maskTopk(s, t, e.ks[r]) else t
  }

  function SourceScores(e: Engine, w: nat, r: nat): (s: seq<Score>)
    requires r < |e.lens|
    ensures |s| == w
  {
    seq(w, j requires 0 <= j < w => if j < e.lens[r] then e.score(r, j) else NegInf)
  }

  function Better(a: Score, b: Score): Score {
    if a.PosInf? || b.NegInf? then a
    else if b.PosInf? || a.NegInf? then b
    else if a.v >= b.v then a else b
  }

  /** Largest score of columns [lo, hi). */
  function BestIn(s: seq<Score>, lo: nat, hi: nat): Score
    requires lo <= hi <= |s|
  {
    if lo == hi then NegInf else Better(BestIn(s, lo, hi - 1), s[hi - 1])
  }

  function Blocks(w: nat, size: nat): (n: nat)
    requires size >= 1
    ensures forall j: nat | j < w :: Block(j, size) < n
  {
    forall j: nat | j < w ensures Block(j, size) < Quotient(w + size - 1, size) {
      QuotientMono(j + size, w + size - 1, size);
      QuotientIs(j + size, size, Quotient(j, size) + 1);
    }
    Quotient(w + size - 1, size)
  }

  function Block(j: nat, size: nat): nat
    requires size >= 1
  {
    Quotient(j, size)
  }

  /** Block maxima; the block of the row's last key always wins. */
  function BlockScores(s: seq<Score>, len: nat, size: nat): (t: seq<Score>)
    requires size >= 1
    ensures |t| == Blocks(|s|, size)
  {
    seq(Blocks(|s|, size), i requires 0 <= i < Blocks(|s|, size) =>
      if len >= 1 && Block(len - 1, size) == i then PosInf
      else BestIn(s, Min(i * size, |s|), Min(i * size + size, |s|)))
  }

  /** A block's score is its largest: some column of the block has it, and none is a larger real or infinite where
      it is not.  The block of the row's last key is infinite instead. */
  lemma BlockScoreIs(s: seq<Score>, len: nat, size: nat, i: nat)
    requires size >= 1 && i < Blocks(|s|, size)
    ensures len >= 1 && i * size < len <= i * size + size ==> BlockScores(s, len, size)[i] == PosInf
    ensures !(len >= 1 && i * size < len <= i * size + size) ==>
      var t := BlockScores(s, len, size)[i];
      && (exists j: nat :: i * size <= j < i * size + size && j < |s| && s[j] == t)
      && forall j: nat | i * size <= j < i * size + size && j < |s| ::
           && (t == NegInf ==> s[j] == NegInf) && (s[j] == PosInf ==> t == PosInf)
           && (s[j].Val? && t.Val? ==> s[j].v <= t.v)
  {
    if len >= 1 && i * size < len <= i * size + size { QuotientIs(len - 1, size, i); }
    BlockStarts(|s|, size, i);
    BestIsLargest(s, i * size, Min(i * size + size, |s|));
  }

  lemma BlockStarts(w: nat, size: nat, i: nat)
    requires size >= 1 && i < Blocks(w, size)
    ensures i * size < w
  {
    MulMono(i + 1, Quotient(w + size - 1, size), size);
    assert (i + 1) * size == i * size + size;
  }

  lemma {:induction false} BestIsLargest(s: seq<Score>, lo: nat, hi: nat)
    requires lo < hi <= |s|
    ensures exists j: nat :: lo <= j < hi && s[j] == BestIn(s, lo, hi)
    ensures forall j: nat | lo <= j < hi ::
              var t := BestIn(s, lo, hi);
              && (t == NegInf ==> s[j] == NegInf) && (s[j] == PosInf ==> t == PosInf)
              && (s[j].Val? && t.Val? ==> s[j].v <= t.v)
  {
    if lo < hi - 1 { BestIsLargest(s, lo, hi - 1); } else { assert s[lo] == BestIn(s, lo, hi); }
  }

  function TakenBlocks(e: Engine, w: nat): (n: nat)
    requires e.blockSize >= 1
    ensures n <= Blocks(w, e.blockSize) && n <= e.topkBlocks && (n == e.topkBlocks || n == Blocks(w, e.blockSize))
  {
    Min(e.topkBlocks, Blocks(w, e.blockSize))
  }

  function KeepId(t: seq<Score>, i: nat): int { if i < |t| && t[i] != NegInf then i else -1 }

  /** candidate_block_ids on one row: the best blocks, -1 where there is nothing to keep. */
  function BlockIds(e: Engine, s: seq<Score>, len: nat): seq<int>
    requires e.blockSize >= 1
  {
    var t := BlockScores(s, len, e.blockSize);
    var top := e.topBlocks(t, TakenBlocks(e, |s|));
    seq(|top|, i requires 0 <= i < |top| => KeepId(t, top[i]))
  }

  /** select_candidate_blocks on one row: column j is kept if its block is one of the best and not empty. */
  predicate Kept(e: Engine, s: seq<Score>, len: nat, j: nat)
    requires e.blockSize >= 1 && j < |s|
  {
    var t := BlockScores(s, len, e.blockSize);
    var i := Block(j, e.blockSize);
    i in e.topBlocks(t, TakenBlocks(e, |s|)) && t[i] != NegInf
  }

  /** A column is kept exactly when its block is among the best and holds the row's last key or a score
      above -inf. */
  lemma KeptIff(e: Engine, s: seq<Score>, len: nat, j: nat)
    requires e.blockSize >= 1 && j < |s|
    ensures
      var size, i := e.blockSize, Block(j, e.blockSize);
      Kept(e, s, len, j) <==>
        && i in e.topBlocks(BlockScores(s, len, size), TakenBlocks(e, |s|))
        && (i * size < len <= i * size + size || exists c: nat :: c < |s| && Block(c, size) == i && s[c] != NegInf)
  {
    var size, i := e.blockSize, Block(j, e.blockSize);
    BlockScoreIs(s, len, size, i);
    hide BlockScores;
    var t := BlockScores(s, len, size)[i];
    if !(i * size < len <= i * size + size) {
      if t != NegInf {
        var c: nat :| i * size <= c < i * size + size && c < |s| && s[c] == t;
        QuotientIs(c, size, i);
      }
    }
  }

  /* ------------------------------------------------------------------ masks from block ids */

  /** scatter_ of True at every id, the missing ids going to one spare column. */
  function Scatter(ids: seq<int>, blocks: nat): (keep: seq<bool>)
    requires forall i | 0 <= i < |ids| :: -1 <= ids[i] < blocks
    ensures |keep| == blocks + 1
    ensures forall i: nat | i < blocks :: keep[i] <==> i in ids
  {
    if ids == [] then seq(blocks + 1, i => false)
    else
      var last := ids[|ids| - 1];
      var keep := Scatter(ids[..|ids| - 1], blocks);
      assert ids == ids[..|ids| - 1] + [last];
      keep[(if last < 0 then blocks else last) := true]
  }

  /** candidate_mask on one row. */
  function CandidateMask(ids: seq<int>, w: nat, size: nat): (m: seq<bool>)
    requires size >= 1 && forall i | 0 <= i < |ids| :: -1 <= ids[i] < Blocks(w, size)
    ensures |m| == w
    ensures forall j: nat | j < w :: m[j] <==> Block(j, size) in ids
  {
    var keep := Scatter(ids, Blocks(w, size));
    seq(w, j requires 0 <= j < w => keep[Block(j, size)])
  }

  lemma BlockIdsInRange(e: Engine, s: seq<Score>, len: nat)
    requires Sane(e)
    ensures |BlockIds(e, s, len)| == TakenBlocks(e, |s|)
    ensures forall i | 0 <= i < |BlockIds(e, s, len)| :: -1 <= BlockIds(e, s, len)[i] < Blocks(|s|, e.blockSize)
  {}

  /** The ids lose nothing: the mask rebuilt from them is the mask of the full selection. */
  lemma MaskFromIds(e: Engine, s: seq<Score>, len: nat, j: nat)
    requires Sane(e) && j < |s|
    ensures forall i | 0 <= i < |BlockIds(e, s, len)| :: -1 <= BlockIds(e, s, len)[i] < Blocks(|s|, e.blockSize)
    ensures CandidateMask(BlockIds(e, s, len), |s|, e.blockSize)[j] <==> Kept(e, s, len, j)
  {
    BlockIdsInRange(e, s, len);
    hide BlockScores;
    var t := BlockScores(s, len, e.blockSize);
    var top := e.topBlocks(t, TakenBlocks(e, |s|));
    var ids := BlockIds(e, s, len);
    var b := Block(j, e.blockSize);
    assert b in ids <==> b in top && t[b] != NegInf by {
      if b in top {
        var i :| 0 <= i < |top| && top[i] == b;
        assert ids[i] == if t[b] != NegInf then b else -1;
      }
    }
  }
}
