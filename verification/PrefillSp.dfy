/** Prefill sequence parallelism (adapter/prefill_sp.py): the residual stays split by rows through the
    layer loop.  The engine is abstract: row-local steps, per-rank partial attention, MoE and lookup,
    and an all-reduce of the partials of one row.  S is a row of the residual with its pre-mix, X a
    row of activations, I a row's token id. */
module PrefillSp {
  import opened Seqs
  import opened IntMath

  /** Row-local steps take the layer and the row count their kernel choice is keyed on. */
  datatype Engine<!S, !X, !I> = Engine(
    attnIn: (nat, nat, S) -> X, attnPart: (nat, nat, seq<X>) -> seq<X>, attnPost: (nat, nat, S, X) -> S,
    moeIn: (nat, nat, S) -> X, moePart: (nat, nat, seq<X>) -> seq<X>, moePost: (nat, nat, S, X) -> S,
    hasEngram: nat -> bool, shared: bool, lookup: (nat, nat, seq<I>) -> seq<X>, lookupAll: (nat, seq<I>) -> seq<X>,
    wkv: (nat, seq<X>) -> seq<X>, gate: (nat, nat, S, X, I) -> S,
    reduce: seq<X> -> X, scatter: (nat, seq<X>) -> X)

  /** Partials, lookups and the wkv product keep the number of rows. */
  ghost predicate KeepsRows<S(!new), X(!new), I(!new)>(e: Engine<S, X, I>) {
    && (forall l: nat, r: nat, xs: seq<X> :: |e.attnPart(l, r, xs)| == |xs|)
    && (forall l: nat, r: nat, xs: seq<X> :: |e.moePart(l, r, xs)| == |xs|)
    && (forall l: nat, r: nat, ids: seq<I> :: |e.lookup(l, r, ids)| == |ids|)
    && (forall l: nat, ids: seq<I> :: |e.lookupAll(l, ids)| == |ids|)
    && (forall l: nat, xs: seq<X> :: |e.wkv(l, xs)| == |xs|)
  }

  /** A chunk of rows split over `world` ranks. */
  datatype Plan = Plan(rows: nat, world: nat, shard: nat, exact: bool)

  predicate Sound(p: Plan) { p.world > 1 && p.rows == p.world * p.shard }

  /** eligible_rows admits exactly the chunks that split evenly. */
  predicate Eligible(rows: nat, world: nat, minRows: nat) { world > 1 && rows >= minRows && rows % world == 0 }

  lemma EligibleSplits(rows: nat, world: nat, minRows: nat, exact: bool)
    requires Eligible(rows, world, minRows)
    ensures Sound(Plan(rows, world, rows / world, exact))
  {}

  function Lo(p: Plan, r: nat): (lo: nat)
    requires Sound(p) && r < p.world
    ensures lo + p.shard <= p.rows
  {
    MulMono(r + 1, p.world, p.shard);
    r * p.shard
  }

  function Slice<T>(p: Plan, r: nat, rows: seq<T>): (s: seq<T>)
    requires Sound(p) && r < p.world && |rows| == p.rows
    ensures |s| == p.shard
    ensures forall i: nat | i < p.shard :: s[i] == rows[Lo(p, r) + i]
  {
    rows[Lo(p, r)..Lo(p, r) + p.shard]
  }

  /** sp_logical_rows: a shard is treated as the whole chunk by every kernel gate. */
  function LogicalRows(p: Plan, n: nat): nat { if n == p.shard then p.rows else n }

  /* ------------------------------------------------------------------------- collectives */

  /** all_gather_into_tensor. */
  function Gather<T>(shards: seq<seq<T>>): seq<T> { Concat(shards) }

  ghost predicate Sharded<T>(p: Plan, shards: seq<seq<T>>, rows: seq<T>)
    requires Sound(p)
  {
    |shards| == p.world && |rows| == p.rows && forall r: nat | r < p.world :: shards[r] == Slice(p, r, rows)
  }

  /** The rows before shard k + 1 are those before shard k and shard k. */
  lemma PrefixGrows<T>(p: Plan, rows: seq<T>, k: nat)
    requires Sound(p) && |rows| == p.rows && k < p.world
    ensures Mul(k, p.shard) + p.shard == Mul(k + 1, p.shard) <= p.rows
    ensures rows[..Mul(k + 1, p.shard)] == rows[..Mul(k, p.shard)] + Slice(p, k, rows)
  {
    MulStep(k, p.world, p.shard);
    var a := Mul(k, p.shard);
    assert Lo(p, k) == a;
    hide Mul, Lo;
    assert Slice(p, k, rows) == rows[a..a + p.shard];
  }

  lemma {:induction false} FlatPrefix<T>(p: Plan, shards: seq<seq<T>>, rows: seq<T>, k: nat)
    requires Sound(p) && Sharded(p, shards, rows) && k <= p.world
    ensures Mul(k, p.shard) <= p.rows && Concat(shards[..k]) == rows[..Mul(k, p.shard)]
  {
    hide Mul, Slice, Lo, Sound;
    if k == 0 {
      ZeroRows(p.shard);
    } else {
      PrefixGrows(p, rows, k - 1);
      FlatPrefix(p, shards, rows, k - 1);
      assert shards[..k][..k - 1] == shards[..k - 1];
    }
  }

  lemma ZeroRows(w: nat)
    ensures Mul(0, w) == 0
  {}

  /** Gathering the shards gives the rows back. */
  lemma GatherSharded<T>(p: Plan, shards: seq<seq<T>>, rows: seq<T>)
    requires Sound(p) && Sharded(p, shards, rows)
    ensures Gather(shards) == rows
  {
    FlatPrefix(p, shards, rows, p.world);
    assert shards[..p.world] == shards && rows[..p.rows] == rows;
  }

  function Column<X>(parts: seq<seq<X>>, i: nat): seq<X>
    requires forall r | 0 <= r < |parts| :: i < |parts[r]|
  {
    seq(|parts|, r requires 0 <= r < |parts| => parts[r][i])
  }

  function AllReduce<S, X, I>(e: Engine<S, X, I>, parts: seq<seq<X>>, n: nat): (y: seq<X>)
    requires Even(parts, n)
    ensures |y| == n
  {
    seq(n, i requires 0 <= i < n => e.reduce(Column(parts, i)))
  }

  /** _reduce_rows: all-reduce and keep the slice in exact mode, else reduce-scatter. */
  function ReduceRows<S, X, I>(e: Engine<S, X, I>, p: Plan, r: nat, parts: seq<seq<X>>): (y: seq<X>)
    requires Sound(p) && r < p.world && Even(parts, p.rows)
    ensures |y| == p.shard
  {
    if p.exact then Slice(p, r, AllReduce(e, parts, p.rows))
    else seq(p.shard, i requires 0 <= i < p.shard => e.scatter(r, Column(parts, Lo(p, r) + i)))
  }

  /** The reduce-scatter adds the same values as the all-reduce, in whatever order. */
  ghost predicate Agrees<S, X(!new), I>(e: Engine<S, X, I>, world: nat) {
    forall r: nat, xs: seq<X> | |xs| == world :: e.scatter(r, xs) == e.reduce(xs)
  }

  lemma ReduceRowsIsSlice<S, X(!new), I>(e: Engine<S, X, I>, p: Plan, r: nat, parts: seq<seq<X>>)
    requires Sound(p) && r < p.world && |parts| == p.world && Even(parts, p.rows)
    requires p.exact || Agrees(e, p.world)
    ensures ReduceRows(e, p, r, parts) == Slice(p, r, AllReduce(e, parts, p.rows))
  {
    var y, z := ReduceRows(e, p, r, parts), AllReduce(e, parts, p.rows);
    forall i: nat | i < p.shard ensures y[i] == z[Lo(p, r) + i] {
      assert |Column(parts, Lo(p, r) + i)| == p.world;
    }
  }

  /** Transport-only mode: reduce-scatter followed by all-gather is the all-reduce. */
  lemma ReduceOutIsAllReduce<S, X(!new), I>(e: Engine<S, X, I>, p: Plan, parts: seq<seq<X>>)
    requires Sound(p) && !p.exact && |parts| == p.world && Even(parts, p.rows) && Agrees(e, p.world)
    ensures Gather(seq(p.world, r requires 0 <= r < p.world => ReduceRows(e, p, r, parts)))
            == AllReduce(e, parts, p.rows)
  {
    var shards := seq(p.world, r requires 0 <= r < p.world => ReduceRows(e, p, r, parts));
    forall r: nat | r < p.world ensures shards[r] == Slice(p, r, AllReduce(e, parts, p.rows)) {
      ReduceRowsIsSlice(e, p, r, parts);
    }
    GatherSharded(p, shards, AllReduce(e, parts, p.rows));
  }

  /* --------------------------------------------------------------------------- row-local steps */

  function AttnIn<S, X, I>(e: Engine<S, X, I>, l: nat, n: nat, rows: seq<S>): (x: seq<X>)
    ensures |x| == |rows|
  { seq(|rows|, i requires 0 <= i < |rows| => e.attnIn(l, n, rows[i])) }

  function MoeIn<S, X, I>(e: Engine<S, X, I>, l: nat, n: nat, rows: seq<S>): (x: seq<X>)
    ensures |x| == |rows|
  { seq(|rows|, i requires 0 <= i < |rows| => e.moeIn(l, n, rows[i])) }

  function AttnPost<S, X, I>(e: Engine<S, X, I>, l: nat, n: nat, rows: seq<S>, y: seq<X>): (s: seq<S>)
    requires |y| == |rows|
    ensures |s| == |rows|
  { seq(|rows|, i requires 0 <= i < |rows| => e.attnPost(l, n, rows[i], y[i])) }

  function MoePost<S, X, I>(e: Engine<S, X, I>, l: nat, n: nat, rows: seq<S>, y: seq<X>): (s: seq<S>)
    requires |y| == |rows|
    ensures |s| == |rows|
  { seq(|rows|, i requires 0 <= i < |rows| => e.moePost(l, n, rows[i], y[i])) }

  function Gate<S, X, I>(e: Engine<S, X, I>, l: nat, n: nat, rows: seq<S>, kv: seq<X>, ids: seq<I>): (s: seq<S>)
    requires |kv| == |rows| == |ids|
    ensures |s| == |rows|
  { seq(|rows|, i requires 0 <= i < |rows| => e.gate(l, n, rows[i], kv[i], ids[i])) }

  /** Per-rank partials on all rows. */
  function AttnParts<S(!new), X(!new), I(!new)>(e: Engine<S, X, I>, W: nat, l: nat, x: seq<X>): (ps: seq<seq<X>>)
    requires KeepsRows(e)
    ensures |ps| == W && Even(ps, |x|)
  { seq(W, r requires 0 <= r < W => e.attnPart(l, r, x)) }

  function MoeParts<S(!new), X(!new), I(!new)>(e: Engine<S, X, I>, W: nat, l: nat, x: seq<X>): (ps: seq<seq<X>>)
    requires KeepsRows(e)
    ensures |ps| == W && Even(ps, |x|)
  { seq(W, r requires 0 <= r < W => e.moePart(l, r, x)) }

  function Lookups<S(!new), X(!new), I(!new)>(e: Engine<S, X, I>, W: nat, l: nat, ids: seq<I>): (ps: seq<seq<X>>)
    requires KeepsRows(e)
    ensures |ps| == W && Even(ps, |ids|)
  { seq(W, r requires 0 <= r < W => e.lookup(l, r, ids)) }

  /* --------------------------------------------------------------------------- the stock layer */

  function StockEngram<S(!new), X(!new), I(!new)>(e: Engine<S, X, I>, W: nat, l: nat, rows: seq<S>,
          ids: seq<I>): (s: seq<S>)
    requires KeepsRows(e) && |ids| == |rows|
    ensures |s| == |rows|
  {
    if !e.hasEngram(l) then rows
    else Gate(e, l, |rows|, rows, e.wkv(l, Emb(e, W, l, ids)), ids)
  }

  function Emb<S(!new), X(!new), I(!new)>(e: Engine<S, X, I>, W: nat, l: nat, ids: seq<I>): (x: seq<X>)
    requires KeepsRows(e)
    ensures |x| == |ids|
  {
    if e.shared then e.lookupAll(l, ids) else AllReduce(e, Lookups(e, W, l, ids), |ids|)
  }

  function StockAttn<S(!new), X(!new), I(!new)>(e: Engine<S, X, I>, W: nat, l: nat, rows: seq<S>): (s: seq<S>)
    requires KeepsRows(e)
    ensures |s| == |rows|
  {
    var n := |rows|;
    AttnPost(e, l, n, rows, AllReduce(e, AttnParts(e, W, l, AttnIn(e, l, n, rows)), n))
  }

  function StockMoe<S(!new), X(!new), I(!new)>(e: Engine<S, X, I>, W: nat, l: nat, rows: seq<S>): (s: seq<S>)
    requires KeepsRows(e)
    ensures |s| == |rows|
  {
    var n := |rows|;
    MoePost(e, l, n, rows, AllReduce(e, MoeParts(e, W, l, MoeIn(e, l, n, rows)), n))
  }

  function StockLayer<S(!new), X(!new), I(!new)>(e: Engine<S, X, I>, W: nat, l: nat, rows: seq<S>,
          ids: seq<I>): (s: seq<S>)
    requires KeepsRows(e) && |ids| == |rows|
    ensures |s| == |rows|
  {
    StockMoe(e, W, l, StockAttn(e, W, l, StockEngram(e, W, l, rows, ids)))
  }

  /** A row of the stock attention in the engine's own steps: the all-reduce of what ranks 0 .. W - 1 compute for it
      from the whole chunk's inputs. */
  lemma StockAttnRow<S(!new), X(!new), I(!new)>(e: Engine<S, X, I>, W: nat, l: nat, rows: seq<S>, i: nat)
    requires KeepsRows(e) && i < |rows|
    ensures
      var n := |rows|;
      var x := seq(n, k requires 0 <= k < n => e.attnIn(l, n, rows[k]));
      StockAttn(e, W, l, rows)[i]
      == e.attnPost(l, n, rows[i], e.reduce(seq(W, r requires 0 <= r < W => e.attnPart(l, r, x)[i])))
  {
    var n := |rows|;
    var x := AttnIn(e, l, n, rows);
    assert x == seq(n, k requires 0 <= k < n => e.attnIn(l, n, rows[k]));
    assert Column(AttnParts(e, W, l, x), i) == seq(W, r requires 0 <= r < W => e.attnPart(l, r, x)[i]);
  }

  lemma StockMoeRow<S(!new), X(!new), I(!new)>(e: Engine<S, X, I>, W: nat, l: nat, rows: seq<S>, i: nat)
    requires KeepsRows(e) && i < |rows|
    ensures
      var n := |rows|;
      var x := seq(n, k requires 0 <= k < n => e.moeIn(l, n, rows[k]));
      StockMoe(e, W, l, rows)[i]
      == e.moePost(l, n, rows[i], e.reduce(seq(W, r requires 0 <= r < W => e.moePart(l, r, x)[i])))
  {
    var n := |rows|;
    var x := MoeIn(e, l, n, rows);
    assert x == seq(n, k requires 0 <= k < n => e.moeIn(l, n, rows[k]));
    assert Column(MoeParts(e, W, l, x), i) == seq(W, r requires 0 <= r < W => e.moePart(l, r, x)[i]);
  }

  lemma StockEngramRow<S(!new), X(!new), I(!new)>(e: Engine<S, X, I>, W: nat, l: nat, rows: seq<S>, ids: seq<I>, i: nat)
    requires KeepsRows(e) && |ids| == |rows| && i < |rows|
    ensures !e.hasEngram(l) ==> StockEngram(e, W, l, rows, ids) == rows
    ensures e.hasEngram(l) ==>
      var n := |rows|;
      var x := Emb(e, W, l, ids);
      && StockEngram(e, W, l, rows, ids)[i] == e.gate(l, n, rows[i], e.wkv(l, x)[i], ids[i])
      && x[i] == if e.shared then e.lookupAll(l, ids)[i]
                 else e.reduce(seq(W, r requires 0 <= r < W => e.lookup(l, r, ids)[i]))
  {
    assert Column(Lookups(e, W, l, ids), i) == seq(W, r requires 0 <= r < W => e.lookup(l, r, ids)[i]);
  }
}
