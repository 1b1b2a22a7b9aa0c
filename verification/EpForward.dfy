/** The chunked forward of one expert-parallel rank, and the sum of the ranks. */
module EpForward {
  import opened Options
  import opened RealSums
  import opened IntMath
  import opened EpRemap
  import opened Seqs

  /** One output component of expert e on input row x. */
  type Expert<!X> = (int, X) -> real

  /** What the fused kernel computes for a row: the weighted sum over its slots, on the rank's experts. */
  function SlotTerm<X>(f: Expert<X>, g: Group, x: X, ids: seq<int>, w: seq<real>): nat -> real
    requires |ids| == |w|
  {
    (k: nat) => if k < |ids| then Times(w[k], f(g.offset + ids[k], x)) else 0.0
  }

  function Mixture<X>(f: Expert<X>, g: Group, x: X, ids: seq<int>, w: seq<real>): real
    requires |ids| == |w|
  {
    Sum(|ids|, SlotTerm(f, g, x, ids, w))
  }

  /** The rank's share of the original routing: the slots that name one of its experts. */
  function ShareTerm<X>(f: Expert<X>, g: Group, x: X, ids: seq<int>, w: seq<real>): nat -> real
    requires |ids| == |w|
  {
    (k: nat) => if k < |ids| && Local(g, ids[k]) then Times(w[k], f(ids[k], x)) else 0.0
  }

  function Share<X>(f: Expert<X>, g: Group, x: X, ids: seq<int>, w: seq<real>): real
    requires |ids| == |w|
  {
    Sum(|ids|, ShareTerm(f, g, x, ids, w))
  }

  /** Remapping keeps the row's share, whatever batch supplied the fillers. */
  lemma RemapKeepsShare<X>(f: Expert<X>, g: Group, x: X, rows: seq<seq<int>>, w: seq<seq<real>>, r: nat,
          ids': seq<int>, w': seq<real>)
    requires r < |rows| == |w| && |rows[r]| == |w[r]| == |ids'| == |w'|
    requires forall k: nat | k < |ids'| :: ids'[k] == NewId(g, rows, r, k) && w'[k] == NewWeight(g, rows[r][k], w[r][k])
    ensures Mixture(f, g, x, ids', w') == Share(f, g, x, rows[r], w[r])
  {
    hide Times;
    forall k: nat | k < |ids'| ensures SlotTerm(f, g, x, ids', w')(k) == ShareTerm(f, g, x, rows[r], w[r])(k) {
      TimesUnits(f(g.offset + ids'[k], x));
    }
    SumEq(|ids'|, SlotTerm(f, g, x, ids', w'), ShareTerm(f, g, x, rows[r], w[r]));
  }

  /* ------------------------------------------------------------------- capacities and chunks */

  /** A prepared plan: its capacity, and how many tokens one of its launches takes. */
  datatype Limit = Limit(cap: nat, perLaunch: nat)

  /** Capacity c has a plan that runs it in one launch (`fits`), or one that does not. */
  predicate Has(limits: seq<Limit>, c: int, fits: bool) {
    exists i :: 0 <= i < |limits| && limits[i].cap == c && (c <= limits[i].perLaunch) == fits
  }

  /** The capacities of one kind, in ascending order. */
  function Sorted(limits: seq<Limit>, fits: bool): (caps: seq<int>)
    ensures Ascending(caps) && forall c :: c in caps <==> Has(limits, c, fits)
  {
    if limits == [] then []
    else
      var n := |limits| - 1;
      var rest := Sorted(limits[..n], fits);
      assert limits == limits[..n] + [limits[n]];
      HasSplit(limits, fits);
      if (limits[n].cap <= limits[n].perLaunch) == fits then Insert(rest, limits[n].cap) else rest
  }

  lemma HasSplit(limits: seq<Limit>, fits: bool)
    requires limits != []
    ensures
      var n := |limits| - 1;
      forall c :: Has(limits, c, fits) <==>
        Has(limits[..n], c, fits) || (limits[n].cap == c && (c <= limits[n].perLaunch) == fits)
  {
    var n := |limits| - 1;
    forall c ensures Has(limits, c, fits) <==>
        Has(limits[..n], c, fits) || (limits[n].cap == c && (c <= limits[n].perLaunch) == fits)
    {
      if Has(limits[..n], c, fits) {
        var i :| 0 <= i < n && limits[..n][i].cap == c && (c <= limits[..n][i].perLaunch) == fits;
        assert limits[i] == limits[..n][i];
      }
      if Has(limits, c, fits) {
        var i :| 0 <= i < |limits| && limits[i].cap == c && (c <= limits[i].perLaunch) == fits;
        if i < n { assert limits[..n][i] == limits[i]; }
      }
    }
  }

  datatype Chosen = Chosen(chunk: int, kept: seq<int>, dropped: seq<int>)

  /** select_chunk: keeps exactly the capacities that run in one launch, the largest as the chunk; if there
      is none, that is fatal.  `limits` has one entry per capacity. */
  function SelectChunk(limits: seq<Limit>): (r: Option<Chosen>)
    ensures r.None? <==> forall i | 0 <= i < |limits| :: limits[i].cap > limits[i].perLaunch
    ensures r.Some? ==>
      && Ascending(r.value.kept) && (forall c :: c in r.value.kept <==> Has(limits, c, true))
      && Ascending(r.value.dropped) && (forall c :: c in r.value.dropped <==> Has(limits, c, false))
      && r.value.chunk in r.value.kept && forall c | c in r.value.kept :: c <= r.value.chunk
  {
    var kept := Sorted(limits, true);
    if kept == [] then
      assert forall i | 0 <= i < |limits| && limits[i].cap <= limits[i].perLaunch :: Has(limits, limits[i].cap, true);
      assert forall c :: !(c in kept);
      None
    else
      assert Has(limits, kept[0], true) by { assert kept[0] in kept; }
      Some(Chosen(kept[|kept| - 1], kept, Sorted(limits, false)))
  }

  /** bisect_left: first position whose capacity is at least m. */
  function Bisect(caps: seq<int>, m: nat): (i: nat)
    requires Ascending(caps)
    ensures i <= |caps| && (forall j | 0 <= j < i :: caps[j] < m) && (forall j | i <= j < |caps| :: caps[j] >= m)
  {
    if caps == [] then 0 else if caps[|caps| - 1] < m then |caps| else Bisect(caps[..|caps| - 1], m)
  }

  /** _lookup: the smallest capacity that holds m rows, else the largest there is. */
  function Lookup(caps: seq<int>, m: nat): (c: int)
    requires caps != [] && Ascending(caps)
    ensures c in caps
    ensures m <= caps[|caps| - 1] ==> m <= c && forall d | d in caps && d >= m :: c <= d
  {
    var i := Bisect(caps, m);
    if i < |caps| then caps[i] else caps[|caps| - 1]
  }

  /** One geometry: its rank's experts, capacities and lookup table, and the buffers of one chunk. */
  class Geometry {
    const group: Group
    const topk: nat
    const caps: seq<int>
    const chunk: nat
    const exactMax: nat
    const table: seq<int>
    const idsBuf: array2<int>
    const wBuf: array2<real>

    ghost predicate Valid()
      reads this
    {
      && Fits(group) && caps != [] && Ascending(caps) && chunk == caps[|caps| - 1] >= 1
      && |table| == exactMax + 1 && (forall m | 1 <= m <= exactMax :: table[m] == Lookup(caps, m))
      && idsBuf.Length0 == wBuf.Length0 == chunk && idsBuf.Length1 == wBuf.Length1 == topk
    }

    /** Keeps the plans that run in one launch; `limits` must hold one. */
    constructor (group: Group, topk: nat, exactMax: nat, limits: seq<Limit>)
      requires Fits(group) && SelectChunk(limits).Some? && forall i | 0 <= i < |limits| :: limits[i].cap >= 1
      ensures Valid() && this.group == group && this.topk == topk && fresh(idsBuf) && fresh(wBuf)
      ensures chunk == SelectChunk(limits).value.chunk && caps == SelectChunk(limits).value.kept
    {
      var sel := SelectChunk(limits).value;
      assert sel.chunk >= 1 by { assert Has(limits, sel.chunk, true); }
      this.group, this.topk, this.exactMax, this.caps, this.chunk := group, topk, exactMax, sel.kept, sel.chunk;
      this.table := [0] + seq(exactMax, m requires 0 <= m < exactMax => Lookup(sel.kept, m + 1));
      this.idsBuf := new int[sel.chunk, topk];
      this.wBuf := new real[sel.chunk, topk];
      assert sel.chunk == sel.kept[|sel.kept| - 1];
    }

    function CapFor(m: nat): (c: int)
      reads this
      requires Valid() && 1 <= m <= chunk
      ensures c in caps && m <= c && forall d | d in caps && d >= m :: c <= d
    {
      if m <= exactMax then table[m] else Lookup(caps, m)
    }

    /** One iteration: remap the chunk's routing unless `direct`, and launch it. */
    method RunChunk<X>(f: Expert<X>, x: seq<X>, ids: seq<seq<int>>, w: seq<seq<real>>, direct: bool, s: nat, e: nat,
            out: array<real>)
      returns (l: Launch)
      requires Valid() && Routes(ids, w, topk) && |x| == |ids| == out.Length && s < e <= |x| && e - s <= chunk
      requires direct ==> group.offset == 0 && Int32Ids(ids)
      modifies out, idsBuf, wBuf
      ensures l.lo == s && l.hi == e && Smallest(caps, l)
      ensures forall r: nat | r < |x| ::
                out[r] == if s <= r < e then Share(f, group, x[r], NarrowAll(ids)[r], w[r]) else old(out[r])
    {
      hide Share, Mixture, NarrowAll, NewId, NewWeight, Int32Ids;
      NarrowSame(ids);
      l := Launch(s, e, CapFor(e - s));
      if direct {
        RunDirect(f, group, x, ids, w, s, e, l.cap, out);
      } else {
        RemapKernel(group, ids[s..e], w[s..e], topk, idsBuf, wBuf);
        assert NarrowAll(ids[s..e]) == NarrowAll(ids)[s..e];
        RunRemapped(f, group, x, NarrowAll(ids), w, s, e, topk, idsBuf, wBuf, l.cap, out);
      }
    }

    /** Runs every row once, chunk by chunk, each on the smallest capacity that holds it; a row's output is
        its share of the original routing, however the batch is cut.  `direct` skips the remap. */
    method Forward<X>(f: Expert<X>, x: seq<X>, ids: seq<seq<int>>, w: seq<seq<real>>, direct: bool, out: array<real>)
      returns (launches: seq<Launch>)
      requires Valid() && Routes(ids, w, topk) && |x| == |ids| == out.Length
      requires direct ==> group.offset == 0 && Int32Ids(ids)
      modifies out, idsBuf, wBuf
      ensures OnceEach(launches, |x|)
      ensures forall i | 0 <= i < |launches| :: Smallest(caps, launches[i])
      ensures forall i | 0 <= i < |launches| - 1 :: Rows(launches[i]) == chunk
      ensures forall r: nat | r < |x| :: out[r] == Share(f, group, x[r], NarrowAll(ids)[r], w[r])
      ensures Int32Ids(ids) ==> forall r: nat | r < |x| :: out[r] == Share(f, group, x[r], ids[r], w[r])
    {
      hide Share, NarrowAll, Smallest, Int32Ids, OnceEach, Chunks;
      NarrowSame(ids);
      launches := [];
      NoLaunch(caps, chunk);
      var s := 0;
      while s < |x|
        invariant s <= |x| && OnceEach(launches, s) && Chunks(caps, launches, chunk, s < |x|)
        invariant forall r: nat | r < s :: out[r] == Share(f, group, x[r], NarrowAll(ids)[r], w[r])
      {
        var e := Min(|x|, s + chunk);
        var l := RunChunk(f, x, ids, w, direct, s, e, out);
        NextLaunch(caps, launches, l, chunk, e < |x|);
        launches := launches + [l];
        s := e;
      }
      ChunksMean(caps, launches, chunk, false);
    }
  }

  /** One launch: rows [lo, hi) on the plan of capacity cap. */
  datatype Launch = Launch(lo: nat, hi: nat, cap: int)

  function Rows(l: Launch): int { l.hi - l.lo }

  /** The launch is on the smallest prepared capacity that holds its rows. */
  predicate Smallest(caps: seq<int>, l: Launch) {
    l.cap in caps && Rows(l) <= l.cap && forall c | c in caps && c >= Rows(l) :: l.cap <= c
  }

  /** The launches follow one another over the rows [0, n): each row is in exactly one. */
  predicate OnceEach(ls: seq<Launch>, n: nat) {
    && (if ls == [] then n == 0 else ls[0].lo == 0 && ls[|ls| - 1].hi == n)
    && (forall i | 0 <= i < |ls| :: ls[i].lo < ls[i].hi)
    && forall i | 0 <= i < |ls| - 1 :: ls[i].hi == ls[i + 1].lo
  }

  /** Every launch is on its smallest capacity, and all take whole chunks, the last only if more rows follow. */
  predicate Chunks(caps: seq<int>, ls: seq<Launch>, chunk: nat, more: bool) {
    forall i | 0 <= i < |ls| :: Smallest(caps, ls[i]) && (i < |ls| - 1 || more ==> Rows(ls[i]) == chunk)
  }

  lemma NoLaunch(caps: seq<int>, chunk: nat)
    ensures OnceEach([], 0) && forall more :: Chunks(caps, [], chunk, more)
  {}

  lemma NextLaunch(caps: seq<int>, ls: seq<Launch>, l: Launch, chunk: nat, more: bool)
    requires OnceEach(ls, l.lo) && l.lo < l.hi && Chunks(caps, ls, chunk, true) && Smallest(caps, l)
    requires more ==> Rows(l) == chunk
    ensures OnceEach(ls + [l], l.hi) && Chunks(caps, ls + [l], chunk, more)
  {
    hide Smallest;
  }

  lemma ChunksMean(caps: seq<int>, ls: seq<Launch>, chunk: nat, more: bool)
    requires Chunks(caps, ls, chunk, more)
    ensures forall i | 0 <= i < |ls| :: Smallest(caps, ls[i])
    ensures forall i | 0 <= i < |ls| - 1 :: Rows(ls[i]) == chunk
  {}

  /** A launch on raw ids; the kernel ignores ids outside its experts. */
  method RunDirect<X>(f: Expert<X>, g: Group, x: seq<X>, ids: seq<seq<int>>, w: seq<seq<real>>, s: nat, e: nat,
          cap: int, out: array<real>)
    requires s <= e <= |x| == |ids| == |w| == out.Length && e - s <= cap
    requires forall r | 0 <= r < |ids| :: |ids[r]| == |w[r]|
    modifies out
    ensures forall r: nat | r < out.Length ::
              out[r] == if s <= r < e then Share(f, g, x[r], ids[r], w[r]) else old(out[r])
  {
    forall r | s <= r < e { out[r] := Share(f, g, x[r], ids[r], w[r]); }
  }

  /** A launch on the remapped buffers. */
  method RunRemapped<X>(f: Expert<X>, g: Group, x: seq<X>, ghost ids: seq<seq<int>>, ghost w: seq<seq<real>>,
          s: nat, e: nat, topk: nat, bIds: array2<int>, bW: array2<real>, cap: int, out: array<real>)
    requires s <= e <= |x| == |ids| == |w| == out.Length && e - s <= cap && Routes(ids, w, topk)
    requires bIds.Length0 >= e - s && bW.Length0 >= e - s && bIds.Length1 == bW.Length1 == topk
    requires forall i: nat, k: nat | i < e - s && k < topk ::
               bIds[i, k] == NewId(g, ids[s..e], i, k) && bW[i, k] == NewWeight(g, ids[s..e][i][k], w[s..e][i][k])
    modifies out
    ensures forall r: nat | r < out.Length ::
              out[r] == if s <= r < e then Share(f, g, x[r], ids[r], w[r]) else old(out[r])
  {
    hide Share, Mixture, NewId;
    forall r | s <= r < e { out[r] := Mixture(f, g, x[r], BufRow(bIds, r - s), BufRow(bW, r - s)); }
    forall r: nat | s <= r < e ensures out[r] == Share(f, g, x[r], ids[r], w[r]) {
      RemapKeepsShare(f, g, x[r], ids[s..e], w[s..e], r - s, BufRow(bIds, r - s), BufRow(bW, r - s));
    }
  }

  function BufRow<T>(a: array2<T>, i: nat): (row: seq<T>)
    reads a
    requires i < a.Length0
    ensures |row| == a.Length1 && forall k: nat | k < a.Length1 :: row[k] == a[i, k]
  {
    seq(a.Length1, k requires 0 <= k < a.Length1 reads a => a[i, k])
  }

  /* ------------------------------------------------------------------------- all the ranks */

  /** Rank i of an expert-parallel group of equal shares. */
  function Rank(i: nat, count: nat): Group { Group(i * count, count) }

  /** The original routing with out-of-range ids dropped. */
  function WholeTerm<X>(f: Expert<X>, total: nat, x: X, ids: seq<int>, w: seq<real>): nat -> real
    requires |ids| == |w|
  {
    (k: nat) => if k < |ids| && 0 <= ids[k] < total then Times(w[k], f(ids[k], x)) else 0.0
  }

  /** The ranks' terms of one slot. */
  function SlotShares<X>(f: Expert<X>, count: nat, x: X, ids: seq<int>, w: seq<real>, k: nat): nat -> real
    requires |ids| == |w| && k < |ids|
  {
    (i: nat) => if Local(Rank(i, count), ids[k]) then Times(w[k], f(ids[k], x)) else 0.0
  }

  /** Only rank id / count owns id, and it exists exactly if id is in range. */
  lemma OneOwner(ranks: nat, count: nat, id: int, i: nat)
    requires count >= 1 && i < ranks
    ensures Local(Rank(i, count), id) <==> 0 <= id < ranks * count && Quotient(id, count) == i
  {
    MulMono(i + 1, ranks, count);
    if Local(Rank(i, count), id) { QuotientIs(id, count, i); }
  }

  /** One slot's shares over the ranks: only the owner's is not zero. */
  lemma SlotConserved<X>(f: Expert<X>, ranks: nat, count: nat, x: X, ids: seq<int>, w: seq<real>, k: nat)
    requires count >= 1 && |ids| == |w| && k < |ids|
    ensures Sum(ranks, SlotShares(f, count, x, ids, w, k)) == WholeTerm(f, ranks * count, x, ids, w)(k)
  {
    var t := SlotShares(f, count, x, ids, w, k);
    var id := ids[k];
    forall i: nat | i < ranks
      ensures Local(Rank(i, count), id) <==> 0 <= id < ranks * count && Quotient(id, count) == i
    {
      OneOwner(ranks, count, id, i);
    }
    hide Local, Rank, Times;
    if 0 <= id < ranks * count {
      var owner := Quotient(id, count);
      if owner >= ranks { MulMono(ranks, owner, count); }
      SumSingle(ranks, owner, t);
    } else {
      SumZero(ranks, t);
    }
  }

  function Partial<X>(f: Expert<X>, count: nat, x: X, ids: seq<int>, w: seq<real>, n: nat): nat -> real
    requires |ids| == |w|
  {
    (i: nat) => Sum(n, ShareTerm(f, Rank(i, count), x, ids, w))
  }

  lemma {:induction false} SlotsConserved<X>(f: Expert<X>, ranks: nat, count: nat, x: X, ids: seq<int>,
          w: seq<real>, n: nat)
    requires count >= 1 && |ids| == |w| && n <= |ids|
    ensures Sum(ranks, Partial(f, count, x, ids, w, n)) == Sum(n, WholeTerm(f, ranks * count, x, ids, w))
  {
    if n == 0 { SumZero(ranks, Partial(f, count, x, ids, w, 0)); return; }
    SlotsConserved(f, ranks, count, x, ids, w, n - 1);
    SlotConserved(f, ranks, count, x, ids, w, n - 1);
    var t := SlotShares(f, count, x, ids, w, n - 1);
    var a, b := Partial(f, count, x, ids, w, n - 1), Partial(f, count, x, ids, w, n);
    forall i: nat | i < ranks ensures b(i) == Times(1.0, a(i)) + Times(1.0, t(i)) {}
    SumLinear(ranks, 1.0, a, 1.0, t, b);
  }

  /** The ranks' shares of one row. */
  function RankShares<X>(f: Expert<X>, count: nat, x: X, ids: seq<int>, w: seq<real>): nat -> real
    requires |ids| == |w|
  {
    (i: nat) => Share(f, Rank(i, count), x, ids, w)
  }

  /** The original routing of one row. */
  function Whole<X>(f: Expert<X>, total: nat, x: X, ids: seq<int>, w: seq<real>): real
    requires |ids| == |w|
  {
    Sum(|ids|, WholeTerm(f, total, x, ids, w))
  }

  /** Summed over the expert-parallel ranks, a row's shares are the original routing's, with
      out-of-range ids dropped. */
  lemma RoutingConserved<X>(f: Expert<X>, ranks: nat, count: nat, x: X, ids: seq<int>, w: seq<real>)
    requires count >= 1 && |ids| == |w|
    ensures Sum(ranks, RankShares(f, count, x, ids, w)) == Whole(f, ranks * count, x, ids, w)
  {
    SlotsConserved(f, ranks, count, x, ids, w, |ids|);
    SumEq(ranks, RankShares(f, count, x, ids, w), Partial(f, count, x, ids, w, |ids|));
  }

  /** Rank i of the group has experts [i * count, (i + 1) * count). */
  ghost predicate Ranks(ranks: seq<Geometry>, count: nat, topk: nat)
    reads ranks
  {
    forall i: nat | i < |ranks| :: ranks[i].Valid() && ranks[i].group == Rank(i, count) && ranks[i].topk == topk
  }

  /** Every rank runs its own forward, and the outputs are added: each row gets the original routing with
      out-of-range ids dropped, whatever capacities, chunks and launches the ranks used.  A group of one
      rank may skip the remap. */
  method ForwardAll<X>(f: Expert<X>, ranks: seq<Geometry>, count: nat, topk: nat, x: seq<X>, ids: seq<seq<int>>,
          w: seq<seq<real>>, direct: bool)
    returns (total: array<real>)
    requires count >= 1 && Ranks(ranks, count, topk) && Routes(ids, w, topk) && |x| == |ids|
    requires direct ==> |ranks| == 1 && Int32Ids(ids)
    modifies set i | 0 <= i < |ranks| :: ranks[i].idsBuf, set i | 0 <= i < |ranks| :: ranks[i].wBuf
    ensures fresh(total) && total.Length == |x|
    ensures forall r: nat | r < |x| :: total[r] == Whole(f, |ranks| * count, x[r], NarrowAll(ids)[r], w[r])
    ensures Int32Ids(ids) ==>
              forall r: nat | r < |x| :: total[r] == Whole(f, |ranks| * count, x[r], ids[r], w[r])
  {
    hide Share, Whole, NarrowAll, RankShares, Int32Ids, OnceEach, Smallest, Added;
    NarrowSame(ids);
    ghost var read := NarrowAll(ids);
    total := new real[|x|](r => 0.0);
    AddedEnds(f, count, x, read, w, 0, total[..]);
    for i := 0 to |ranks|
      invariant Ranks(ranks, count, topk) && Added(f, count, x, read, w, i, total[..])
    {
      var out := new real[|x|](r => 0.0);
      var launches := ranks[i].Forward(f, x, ids, w, direct, out);
      ghost var was := total[..];
      AddInto(total, out);
      AddedNext(f, count, x, read, w, i, was, out[..], total[..]);
    }
    AddedEnds(f, count, x, read, w, |ranks|, total[..]);
  }

  /** total holds the sum of the first n ranks' shares, row by row. */
  ghost predicate Added<X>(f: Expert<X>, count: nat, x: seq<X>, ids: seq<seq<int>>, w: seq<seq<real>>, n: nat,
          total: seq<real>)
    requires |x| == |ids| == |w| && forall r | 0 <= r < |ids| :: |ids[r]| == |w[r]|
  {
    |total| == |x| && forall r: nat | r < |x| :: total[r] == Sum(n, RankShares(f, count, x[r], ids[r], w[r]))
  }

  lemma AddedNext<X>(f: Expert<X>, count: nat, x: seq<X>, ids: seq<seq<int>>, w: seq<seq<real>>, i: nat,
          was: seq<real>, out: seq<real>, now: seq<real>)
    requires |x| == |ids| == |w| == |out| == |now| && forall r | 0 <= r < |ids| :: |ids[r]| == |w[r]|
    requires Added(f, count, x, ids, w, i, was)
    requires forall r: nat | r < |x| :: out[r] == Share(f, Rank(i, count), x[r], ids[r], w[r])
    requires forall r: nat | r < |x| :: now[r] == was[r] + out[r]
    ensures Added(f, count, x, ids, w, i + 1, now)
  {
    hide Share;
  }

  lemma AddedEnds<X>(f: Expert<X>, count: nat, x: seq<X>, ids: seq<seq<int>>, w: seq<seq<real>>, n: nat,
          total: seq<real>)
    requires count >= 1 && |x| == |ids| == |w| == |total| && forall r | 0 <= r < |ids| :: |ids[r]| == |w[r]|
    ensures n == 0 && (forall r | 0 <= r < |x| :: total[r] == 0.0) ==> Added(f, count, x, ids, w, n, total)
    ensures Added(f, count, x, ids, w, n, total) ==>
              forall r: nat | r < |x| :: total[r] == Whole(f, n * count, x[r], ids[r], w[r])
  {
    hide Share, Whole;
    forall r: nat | r < |x|
      ensures Sum(n, RankShares(f, count, x[r], ids[r], w[r])) == Whole(f, n * count, x[r], ids[r], w[r])
    {
      RoutingConserved(f, n, count, x[r], ids[r], w[r]);
    }
  }

  method AddInto(total: array<real>, out: array<real>)
    requires total.Length == out.Length && total != out
    modifies total
    ensures forall r: nat | r < total.Length :: total[r] == old(total[r]) + out[r]
  {
    for r := 0 to total.Length
      invariant forall j: nat | j < r :: total[j] == old(total[j]) + out[j]
      invariant forall j: nat | r <= j < total.Length :: total[j] == old(total[j])
    {
      total[r] := total[r] + out[r];
    }
  }
}
