/** The sharded layer loop refines the unsharded one, layer by layer and through the tail switch. */
module PrefillSpProof {
  import opened Seqs
  import opened Options
  import opened IntMath
  import opened PrefillSp

  /* ----------------------------------------------------------- one layer, on every rank's shard */

  /** attention with a gathered input and a row-wise reduced output. */
  function SpAttn<S(!new), X(!new), I(!new)>(e: Engine<S, X, I>, p: Plan, l: nat,
          shards: seq<seq<S>>): (out: seq<seq<S>>)
    requires KeepsRows(e) && Sound(p) && |shards| == p.world && Even(shards, p.shard)
    requires |Gather(AttnIns(e, p, l, shards))| == p.rows
    ensures |out| == p.world && Even(out, p.shard)
  {
    var parts := AttnParts(e, p.world, l, Gather(AttnIns(e, p, l, shards)));
    seq(p.world, r requires 0 <= r < p.world =>
      AttnPost(e, l, LogicalRows(p, |shards[r]|), shards[r], ReduceRows(e, p, r, parts)))
  }

  function AttnIns<S(!new), X(!new), I(!new)>(e: Engine<S, X, I>, p: Plan, l: nat, shards: seq<seq<S>>): seq<seq<X>> {
    seq(|shards|, r requires 0 <= r < |shards| => AttnIn(e, l, LogicalRows(p, |shards[r]|), shards[r]))
  }

  function SpMoe<S(!new), X(!new), I(!new)>(e: Engine<S, X, I>, p: Plan, l: nat,
          shards: seq<seq<S>>): (out: seq<seq<S>>)
    requires KeepsRows(e) && Sound(p) && |shards| == p.world && Even(shards, p.shard)
    requires |Gather(MoeIns(e, p, l, shards))| == p.rows
    ensures |out| == p.world && Even(out, p.shard)
  {
    var parts := MoeParts(e, p.world, l, Gather(MoeIns(e, p, l, shards)));
    seq(p.world, r requires 0 <= r < p.world =>
      MoePost(e, l, LogicalRows(p, |shards[r]|), shards[r], ReduceRows(e, p, r, parts)))
  }

  function MoeIns<S(!new), X(!new), I(!new)>(e: Engine<S, X, I>, p: Plan, l: nat, shards: seq<seq<S>>): seq<seq<X>> {
    seq(|shards|, r requires 0 <= r < |shards| => MoeIn(e, l, LogicalRows(p, |shards[r]|), shards[r]))
  }

  lemma SpAttnRefines<S(!new), X(!new), I(!new)>(e: Engine<S, X, I>, p: Plan, l: nat, shards: seq<seq<S>>, rows: seq<S>)
    requires KeepsRows(e) && Sound(p) && (p.exact || Agrees(e, p.world)) && Sharded(p, shards, rows)
    ensures Even(shards, p.shard) && |Gather(AttnIns(e, p, l, shards))| == p.rows
    ensures Sharded(p, SpAttn(e, p, l, shards), StockAttn(e, p.world, l, rows))
  {
    var x := AttnIn(e, l, p.rows, rows);
    assert Sharded(p, AttnIns(e, p, l, shards), x);
    GatherSharded(p, AttnIns(e, p, l, shards), x);
    var parts := AttnParts(e, p.world, l, x);
    forall r: nat | r < p.world ensures ReduceRows(e, p, r, parts) == Slice(p, r, AllReduce(e, parts, p.rows)) {
      ReduceRowsIsSlice(e, p, r, parts);
    }
  }

  lemma SpMoeRefines<S(!new), X(!new), I(!new)>(e: Engine<S, X, I>, p: Plan, l: nat, shards: seq<seq<S>>, rows: seq<S>)
    requires KeepsRows(e) && Sound(p) && (p.exact || Agrees(e, p.world)) && Sharded(p, shards, rows)
    ensures Even(shards, p.shard) && |Gather(MoeIns(e, p, l, shards))| == p.rows
    ensures Sharded(p, SpMoe(e, p, l, shards), StockMoe(e, p.world, l, rows))
  {
    var x := MoeIn(e, l, p.rows, rows);
    assert Sharded(p, MoeIns(e, p, l, shards), x);
    GatherSharded(p, MoeIns(e, p, l, shards), x);
    var parts := MoeParts(e, p.world, l, x);
    forall r: nat | r < p.world ensures ReduceRows(e, p, r, parts) == Slice(p, r, AllReduce(e, parts, p.rows)) {
      ReduceRowsIsSlice(e, p, r, parts);
    }
  }

  /* ------------------------------------------------------------------------------------ Engram */

  /** This rank's lookup rows. */
  function EmbShard<S(!new), X(!new), I(!new)>(e: Engine<S, X, I>, p: Plan, l: nat, ids: seq<I>, r: nat): (x: seq<X>)
    requires KeepsRows(e) && Sound(p) && r < p.world && |ids| == p.rows
    ensures |x| == p.shard
  {
    if e.shared then Slice(p, r, e.lookupAll(l, ids)) else ReduceRows(e, p, r, Lookups(e, p.world, l, ids))
  }

  function Embs<S(!new), X(!new), I(!new)>(e: Engine<S, X, I>, p: Plan, l: nat, ids: seq<I>): (x: seq<seq<X>>)
    requires KeepsRows(e) && Sound(p) && |ids| == p.rows
    ensures |x| == p.world
  {
    seq(p.world, r requires 0 <= r < p.world => EmbShard(e, p, l, ids, r))
  }

  /** The agreed verdict on running the wkv product on shards: every rank's rows equal. */
  ghost predicate ShardsEqual<S(!new), X(!new), I(!new)>(e: Engine<S, X, I>, p: Plan, l: nat, x: seq<X>)
    requires KeepsRows(e) && Sound(p) && |x| == p.rows
  {
    forall r: nat | r < p.world :: e.wkv(l, Slice(p, r, x)) == Slice(p, r, e.wkv(l, x))
  }

  /** _wkv_shard: no verdict yet: both, compare, agree; a bad verdict or full mode: gather. */
  ghost function WkvShard<S(!new), X(!new), I(!new)>(e: Engine<S, X, I>, p: Plan, l: nat, verdict: Option<bool>,
          x: seq<X>, r: nat): (kv: seq<X>)
    requires KeepsRows(e) && Sound(p) && |x| == p.rows && r < p.world
    ensures |kv| == p.shard
  {
    var part, mine := e.wkv(l, Slice(p, r, x)), Slice(p, r, e.wkv(l, x));
    if verdict.None? then (if ShardsEqual(e, p, l, x) then part else mine)
    else if verdict.value then part else mine
  }

  ghost function SpEngram<S(!new), X(!new), I(!new)>(e: Engine<S, X, I>, p: Plan, l: nat, verdict: Option<bool>,
          shards: seq<seq<S>>, ids: seq<I>): (out: seq<seq<S>>)
    requires KeepsRows(e) && Sound(p) && |shards| == p.world && Even(shards, p.shard) && |ids| == p.rows
    requires |Gather(Embs(e, p, l, ids))| == p.rows
  {
    if !e.hasEngram(l) then shards
    else
      seq(p.world, r requires 0 <= r < p.world =>
        Gate(e, l, LogicalRows(p, |shards[r]|), shards[r],
             WkvShard(e, p, l, verdict, Gather(Embs(e, p, l, ids)), r), Slice(p, r, ids)))
  }

  /** A standing good verdict is right about this chunk: the shard products are the full product's rows.
      The verdict was earned on an earlier chunk of the same size, so this is an assumption about the
      kernel. */
  ghost predicate VerdictSound<S(!new), X(!new), I(!new)>(e: Engine<S, X, I>, p: Plan, l: nat,
          verdict: Option<bool>, x: seq<X>)
    requires KeepsRows(e) && Sound(p) && |x| == p.rows
  {
    verdict == Some(true) ==> ShardsEqual(e, p, l, x)
  }

  lemma EmbsRefine<S(!new), X(!new), I(!new)>(e: Engine<S, X, I>, p: Plan, l: nat, ids: seq<I>)
    requires KeepsRows(e) && Sound(p) && |ids| == p.rows && (p.exact || Agrees(e, p.world))
    ensures Gather(Embs(e, p, l, ids)) == Emb(e, p.world, l, ids)
  {
    forall r: nat | r < p.world ensures Embs(e, p, l, ids)[r] == Slice(p, r, Emb(e, p.world, l, ids)) {
      if !e.shared { ReduceRowsIsSlice(e, p, r, Lookups(e, p.world, l, ids)); }
    }
    GatherSharded(p, Embs(e, p, l, ids), Emb(e, p.world, l, ids));
  }

  lemma SpEngramRefines<S(!new), X(!new), I(!new)>(e: Engine<S, X, I>, p: Plan, l: nat, verdict: Option<bool>,
          shards: seq<seq<S>>, rows: seq<S>, ids: seq<I>)
    requires KeepsRows(e) && Sound(p) && (p.exact || Agrees(e, p.world)) && Sharded(p, shards, rows)
    requires |ids| == p.rows && VerdictSound(e, p, l, verdict, Emb(e, p.world, l, ids))
    ensures Even(shards, p.shard) && |Gather(Embs(e, p, l, ids))| == p.rows
    ensures Sharded(p, SpEngram(e, p, l, verdict, shards, ids), StockEngram(e, p.world, l, rows, ids))
  {
    EmbsRefine(e, p, l, ids);
    if e.hasEngram(l) {
      var x := Emb(e, p.world, l, ids);
      WkvExactIff(e, p, l, verdict, x);
      hide WkvShard, VerdictSound, Emb, Embs, Agrees;
      GateSlices(e, p, l, verdict, shards, rows, ids, x);
    }
  }

  /** A check of VerdictSound: it says exactly that every rank's kv rows are the full product's.  After a good
      verdict that is the equality on the chunk at hand, which no earlier chunk can promise. */
  lemma WkvExactIff<S(!new), X(!new), I(!new)>(e: Engine<S, X, I>, p: Plan, l: nat, verdict: Option<bool>, x: seq<X>)
    requires KeepsRows(e) && Sound(p) && |x| == p.rows
    ensures (forall r: nat | r < p.world :: WkvShard(e, p, l, verdict, x, r) == Slice(p, r, e.wkv(l, x)))
       <==> VerdictSound(e, p, l, verdict, x)
  {
    if verdict == Some(true) {
      forall r: nat | r < p.world ensures WkvShard(e, p, l, verdict, x, r) == e.wkv(l, Slice(p, r, x)) {}
      hide WkvShard;
    }
  }

  lemma GateSlices<S(!new), X(!new), I(!new)>(e: Engine<S, X, I>, p: Plan, l: nat, verdict: Option<bool>,
          shards: seq<seq<S>>, rows: seq<S>, ids: seq<I>, x: seq<X>)
    requires KeepsRows(e) && Sound(p) && Sharded(p, shards, rows) && |ids| == |x| == p.rows && e.hasEngram(l)
    requires x == Emb(e, p.world, l, ids) == Gather(Embs(e, p, l, ids)) && Even(shards, p.shard)
    requires forall r: nat | r < p.world :: WkvShard(e, p, l, verdict, x, r) == Slice(p, r, e.wkv(l, x))
    ensures Sharded(p, SpEngram(e, p, l, verdict, shards, ids), StockEngram(e, p.world, l, rows, ids))
  {
    hide WkvShard, Embs, Gather, Emb;
    assert |e.wkv(l, x)| == p.rows;
    var out, stock := SpEngram(e, p, l, verdict, shards, ids), StockEngram(e, p.world, l, rows, ids);
    forall r: nat | r < p.world ensures out[r] == Slice(p, r, stock) {
      assert Slice(p, r, rows) == shards[r];
    }
  }

  /** One sharded layer: Engram, attention, MoE. */
  ghost function SpLayer<S(!new), X(!new), I(!new)>(e: Engine<S, X, I>, p: Plan, l: nat, verdict: Option<bool>,
          rows: seq<S>, shards: seq<seq<S>>, ids: seq<I>): (out: seq<seq<S>>)
    requires KeepsRows(e) && Sound(p) && (p.exact || Agrees(e, p.world)) && Sharded(p, shards, rows)
    requires |ids| == p.rows && VerdictSound(e, p, l, verdict, Emb(e, p.world, l, ids))
    ensures Sharded(p, out, StockLayer(e, p.world, l, rows, ids))
  {
    SpEngramRefines(e, p, l, verdict, shards, rows, ids);
    var a, ra := SpEngram(e, p, l, verdict, shards, ids), StockEngram(e, p.world, l, rows, ids);
    SpAttnRefines(e, p, l, a, ra);
    var b, rb := SpAttn(e, p, l, a), StockAttn(e, p.world, l, ra);
    SpMoeRefines(e, p, l, b, rb);
    SpMoe(e, p, l, b)
  }

  /* --------------------------------------------------------------------------- the tail switch */

  /** Rows the late layers keep, and padding rows behind them. */
  datatype Tail<S, I> = Tail(idx: seq<nat>, pad: nat, zeroRow: S, zeroId: I)

  predicate TailFits<S, I>(t: Tail<S, I>, n: nat) { forall j | 0 <= j < |t.idx| :: t.idx[j] < n }

  function Pick<T>(rows: seq<T>, idx: seq<nat>): (s: seq<T>)
    requires forall j | 0 <= j < |idx| :: idx[j] < |rows|
    ensures |s| == |idx| && forall j | 0 <= j < |idx| :: s[j] == rows[idx[j]]
  { seq(|idx|, j requires 0 <= j < |idx| => rows[idx[j]]) }

  function TailRows<S, I>(t: Tail<S, I>, rows: seq<S>): (s: seq<S>)
    requires TailFits(t, |rows|)
    ensures |s| == |t.idx| + t.pad
    ensures forall j | 0 <= j < |s| :: s[j] == if j < |t.idx| then rows[t.idx[j]] else t.zeroRow
  { Pick(rows, t.idx) + seq(t.pad, _ => t.zeroRow) }

  function TailIds<S, I>(t: Tail<S, I>, ids: seq<I>): (s: seq<I>)
    requires TailFits(t, |ids|)
    ensures |s| == |t.idx| + t.pad
    ensures forall j | 0 <= j < |s| :: s[j] == if j < |t.idx| then ids[t.idx[j]] else t.zeroId
  { Pick(ids, t.idx) + seq(t.pad, _ => t.zeroId) }

  /** _tail_real_rows: gather everything, or all-gather each rank's candidate rows and take the owner's. */
  function TailRealRows<S>(p: Plan, shards: seq<seq<S>>, idx: seq<nat>): (s: seq<S>)
    requires Sound(p) && |shards| == p.world && Even(shards, p.shard) && forall j | 0 <= j < |idx| :: idx[j] < p.rows
    requires |Gather(shards)| == p.rows
  {
    if p.world * |idx| >= p.rows || |idx| == 0 then Pick(Gather(shards), idx)
    else
      ShardPositive(p);
      seq(|idx|, j requires 0 <= j < |idx| => OwnerRow(p, shards, idx[j]))
  }

  /** buf[owner][j]: the owner's local row; every rank sends its row at the clamped local index. */
  function OwnerRow<S>(p: Plan, shards: seq<seq<S>>, i: nat): S
    requires Sound(p) && |shards| == p.world && Even(shards, p.shard) && i < p.rows && p.shard > 0
  {
    var owner := Quotient(i, p.shard);
    OwnerInRange(p, i);
    var local := i - owner * p.shard;
    shards[owner][if local <= p.shard - 1 then local else p.shard - 1]
  }

  lemma ShardPositive(p: Plan)
    ensures Sound(p) && p.rows > 0 ==> p.shard > 0
  {}

  lemma OwnerInRange(p: Plan, i: nat)
    requires Sound(p) && i < p.rows && p.shard > 0
    ensures Quotient(i, p.shard) < p.world
  {
    var q := Quotient(i, p.shard);
    MulSign(q - p.world, p.shard);
    assert (q - p.world) * p.shard == q * p.shard - p.rows;
  }

  lemma TailRealRowsRefine<S>(p: Plan, shards: seq<seq<S>>, rows: seq<S>, idx: seq<nat>)
    requires Sound(p) && Sharded(p, shards, rows) && forall j | 0 <= j < |idx| :: idx[j] < p.rows
    ensures |Gather(shards)| == p.rows && Even(shards, p.shard)
    ensures TailRealRows(p, shards, idx) == Pick(rows, idx)
  {
    GatherSharded(p, shards, rows);
    if !(p.world * |idx| >= p.rows || |idx| == 0) {
      ShardPositive(p);
      forall j | 0 <= j < |idx| ensures OwnerRow(p, shards, idx[j]) == rows[idx[j]] {
        OwnerInRange(p, idx[j]);
        assert Lo(p, Quotient(idx[j], p.shard)) == Quotient(idx[j], p.shard) * p.shard;
      }
    }
  }

  /* ---------------------------------------------------------------------------- the layer loop */

  /** The rows and ids that enter layer l: only the tail from layer `late` on. */
  function RowsAt<S, I>(t: Tail<S, I>, late: Option<nat>, l: nat, rows: seq<S>): seq<S>
    requires late == Some(l) ==> TailFits(t, |rows|)
  {
    if late == Some(l) then TailRows(t, rows) else rows
  }

  function IdsAt<S, I>(t: Tail<S, I>, late: Option<nat>, l: nat, ids: seq<I>): seq<I>
    requires late == Some(l) ==> TailFits(t, |ids|)
  {
    if late == Some(l) then TailIds(t, ids) else ids
  }

  /** The unsharded model over layers l .. n - 1; at layer `late` only the tail rows go on. */
  ghost function StockForward<S(!new), X(!new), I(!new)>(e: Engine<S, X, I>, W: nat, l: nat, n: nat,
          late: Option<nat>, t: Tail<S, I>, rows: seq<S>, ids: seq<I>): seq<S>
    requires KeepsRows(e) && |ids| == |rows| && l <= n
    requires late.Some? && l <= late.value < n ==> TailFits(t, |rows|)
    decreases n - l
  {
    if l == n then rows
    else
      var rows', ids' := RowsAt(t, late, l, rows), IdsAt(t, late, l, ids);
      StockForward(e, W, l + 1, n, late, t, StockLayer(e, W, l, rows', ids'), ids')
  }

  /** Rows the stock model shows to the key-value write of the last source layer. */
  ghost function StockAt<S(!new), X(!new), I(!new)>(e: Engine<S, X, I>, W: nat, l: nat, n: nat, rows: seq<S>,
          ids: seq<I>): (s: seq<S>)
    requires KeepsRows(e) && |ids| == |rows| && l <= n
    ensures |s| == |rows|
    decreases n - l
  {
    if l == n then rows else StockAt(e, W, l + 1, n, StockLayer(e, W, l, rows, ids), ids)
  }

  /** What the stock model captures at layer l: the rows after the lookup, or their tail before the switch. */
  ghost function Captured<S(!new), X(!new), I(!new)>(e: Engine<S, X, I>, W: nat, l: nat, late: Option<nat>,
          t: Tail<S, I>, rows: seq<S>, ids: seq<I>): seq<S>
    requires KeepsRows(e) && |ids| == |rows| && (late.Some? && l < late.value ==> TailFits(t, |rows|))
  {
    var r := StockEngram(e, W, l, rows, ids);
    if late.Some? && l < late.value then TailRows(t, r) else r
  }

  /** The captures of layers l .. n - 1. */
  ghost function StockAux<S(!new), X(!new), I(!new)>(e: Engine<S, X, I>, W: nat, l: nat, n: nat, late: Option<nat>,
          t: Tail<S, I>, wanted: nat -> bool, rows: seq<S>, ids: seq<I>): seq<seq<S>>
    requires KeepsRows(e) && |ids| == |rows| && l <= n && (late.Some? && l <= late.value ==> TailFits(t, |rows|))
    decreases n - l
  {
    if l == n then []
    else
      var rows', ids' := RowsAt(t, late, l, rows), IdsAt(t, late, l, ids);
      (if wanted(l) then [Captured(e, W, l, late, t, rows', ids')] else [])
      + StockAux(e, W, l + 1, n, late, t, wanted, StockLayer(e, W, l, rows', ids'), ids')
  }

  /** A capture from the shards: the tail rows, or everything. */
  ghost function SpCaptured<S(!new), X(!new), I(!new)>(e: Engine<S, X, I>, p: Plan, l: nat, verdict: Option<bool>,
          late: Option<nat>, t: Tail<S, I>, rows: seq<S>, shards: seq<seq<S>>, ids: seq<I>): (s: seq<S>)
    requires KeepsRows(e) && Sound(p) && (p.exact || Agrees(e, p.world)) && Sharded(p, shards, rows)
    requires |ids| == p.rows && VerdictSound(e, p, l, verdict, Emb(e, p.world, l, ids))
    requires TailFits(t, p.rows) && (late.Some? ==> l < late.value)
    ensures s == Captured(e, p.world, l, late, t, rows, ids)
  {
    SpEngramRefines(e, p, l, verdict, shards, rows, ids);
    var a, ra := SpEngram(e, p, l, verdict, shards, ids), StockEngram(e, p.world, l, rows, ids);
    GatherSharded(p, a, ra);
    TailRealRowsRefine(p, a, ra, t.idx);
    if late.Some? then TailRealRows(p, a, t.idx) + seq(t.pad, _ => t.zeroRow) else Gather(a)
  }

  /** Where the loop stands: the shards while the residual is split, and the whole rows they stand for. */
  datatype Loop<S, I> = Loop(shards: seq<seq<S>>, rows: seq<S>, ids: seq<I>, inRegion: bool)

  ghost predicate LoopOk<S, I>(p: Plan, l: nat, late: Option<nat>, ids: seq<I>, st: Loop<S, I>)
    requires Sound(p)
  {
    && |st.ids| == |st.rows|
    && (if st.inRegion then Sharded(p, st.shards, st.rows) && st.ids == ids && (late.Some? ==> l <= late.value)
        else late.Some? && late.value < l)
  }

  /** One iteration of the loop: the tail switch, the capture and the layer are the stock ones. */
  ghost method SpStep<S(!new), X(!new), I(!new)>(e: Engine<S, X, I>, p: Plan, l: nat, late: Option<nat>,
          t: Tail<S, I>, verdict: Option<bool>, ids: seq<I>, st: Loop<S, I>)
    returns (next: Loop<S, I>, kv: Option<seq<S>>, capture: seq<S>)
    requires KeepsRows(e) && Sound(p) && (p.exact || Agrees(e, p.world)) && |ids| == p.rows && TailFits(t, p.rows)
    requires LoopOk(p, l, late, ids, st) && VerdictSound(e, p, l, verdict, Emb(e, p.world, l, ids))
    ensures LoopOk(p, l + 1, late, ids, next) && kv == if late == Some(l) then Some(st.rows) else None
    ensures late == Some(l) ==> |st.rows| == p.rows
    ensures
      var rows', ids' := RowsAt(t, late, l, st.rows), IdsAt(t, late, l, st.ids);
      && |rows'| == |ids'| && (late.Some? && l < late.value ==> |rows'| == p.rows)
      && next.rows == StockLayer(e, p.world, l, rows', ids') && next.ids == ids'
      && capture == Captured(e, p.world, l, late, t, rows', ids')
  {
    hide StockLayer, VerdictSound, Agrees, KeepsRows, Captured;
    var st' := st;
    kv := None;
    if late == Some(l) {
      GatherSharded(p, st.shards, st.rows);
      kv := Some(Gather(st.shards));
      TailRealRowsRefine(p, st.shards, st.rows, t.idx);
      st' := Loop([], TailRealRows(p, st.shards, t.idx) + seq(t.pad, _ => t.zeroRow), TailIds(t, st.ids), false);
    }
    if st'.inRegion {
      capture := SpCaptured(e, p, l, verdict, late, t, st'.rows, st'.shards, st'.ids);
      next := st'.(shards := SpLayer(e, p, l, verdict, st'.rows, st'.shards, st'.ids));
    } else {
      capture := Captured(e, p.world, l, late, t, st'.rows, st'.ids);
      next := st';
    }
    next := next.(rows := StockLayer(e, p.world, l, st'.rows, st'.ids));
  }

  /** What the loop still owes is what the stock model still computes. */
  ghost predicate Owed<S(!new), X(!new), I(!new)>(e: Engine<S, X, I>, W: nat, l: nat, n: nat, late: Option<nat>,
          t: Tail<S, I>, wanted: nat -> bool, rows: seq<S>, ids: seq<I>, out: seq<S>, aux: seq<seq<S>>)
    requires KeepsRows(e)
  {
    && |ids| == |rows| && l <= n && (late.Some? && l <= late.value ==> TailFits(t, |rows|))
    && out == StockForward(e, W, l, n, late, t, rows, ids) && aux == StockAux(e, W, l, n, late, t, wanted, rows, ids)
  }

  lemma OwedNext<S(!new), X(!new), I(!new)>(e: Engine<S, X, I>, W: nat, l: nat, n: nat, late: Option<nat>,
          t: Tail<S, I>, wanted: nat -> bool, rows: seq<S>, ids: seq<I>, out: seq<S>, aux: seq<seq<S>>)
    returns (rest: seq<seq<S>>)
    requires KeepsRows(e) && Owed(e, W, l, n, late, t, wanted, rows, ids, out, aux) && l < n
    ensures
      var rows', ids' := RowsAt(t, late, l, rows), IdsAt(t, late, l, ids);
      && |rows'| == |ids'| && (late != Some(l) ==> rows' == rows && ids' == ids)
      && Owed(e, W, l + 1, n, late, t, wanted, StockLayer(e, W, l, rows', ids'), ids', out, rest)
      && aux == (if wanted(l) then [Captured(e, W, l, late, t, rows', ids')] else []) + rest
  {
    hide StockLayer, KeepsRows, Captured;
    var rows', ids' := RowsAt(t, late, l, rows), IdsAt(t, late, l, ids);
    rest := StockAux(e, W, l + 1, n, late, t, wanted, StockLayer(e, W, l, rows', ids'), ids');
  }

  /** _sp_forward_layers, all ranks in step.  Whatever the reduction does in exact mode, and whenever
      the reduce-scatter adds the same values otherwise, every layer's shards concatenate to the
      unsharded residual; the full-prompt key-value write, the captures, the tail rows and the result are
      stock. */
  ghost method SpForwardLayers<S(!new), X(!new), I(!new)>(e: Engine<S, X, I>, p: Plan, n: nat, late: Option<nat>,
          t: Tail<S, I>, verdict: nat -> Option<bool>, wanted: nat -> bool, input: seq<S>, ids: seq<I>)
    returns (out: seq<S>, kv: Option<seq<S>>, aux: seq<seq<S>>)
    requires KeepsRows(e) && Sound(p) && (p.exact || Agrees(e, p.world))
    requires |input| == |ids| == p.rows && TailFits(t, p.rows)
    requires forall l: nat :: VerdictSound(e, p, l, verdict(l), Emb(e, p.world, l, ids))
    ensures out == StockForward(e, p.world, 0, n, late, t, input, ids)
    ensures late.Some? && late.value < n ==> kv == Some(StockAt(e, p.world, 0, late.value, input, ids))
    ensures aux == StockAux(e, p.world, 0, n, late, t, wanted, input, ids)
  {
    hide *;
    var st := Loop(seq(p.world, r requires 0 <= r < p.world => Slice(p, r, input)), input, ids, true);
    Starts(e, p, n, late, t, wanted, input, ids);
    var target := StockForward(e, p.world, 0, n, late, t, input, ids);
    var total := StockAux(e, p.world, 0, n, late, t, wanted, input, ids);
    var owed := total;
    kv, aux := None, [];
    for l := 0 to n
      invariant LoopOk(p, l, late, ids, st) && Owed(e, p.world, l, n, late, t, wanted, st.rows, st.ids, target, owed)
      invariant aux + owed == total
      invariant Written(e, p.world, l, late, input, ids, st, kv)
    {
      var rest := OwedNext(e, p.world, l, n, late, t, wanted, st.rows, st.ids, target, owed);
      var next, written, capture := SpStep(e, p, l, late, t, verdict(l), ids, st);
      assert aux + ([capture] + rest) == (aux + [capture]) + rest && aux + ([] + rest) == aux + rest;
      WrittenNext(e, p, l, late, t, input, ids, st, kv, next, written);
      if written.Some? { kv := written; }
      if wanted(l) { aux := aux + [capture]; }
      owed, st := rest, next;
    }
    Ends(e, p, n, late, t, wanted, st, target, owed, input, ids, kv);
    assert aux + [] == aux;
    out := if st.inRegion then Gather(st.shards) else st.rows;
  }

  /** The key-value write has been given every row of the stock model at the switch. */
  ghost predicate Written<S(!new), X(!new), I(!new)>(e: Engine<S, X, I>, W: nat, l: nat, late: Option<nat>,
          input: seq<S>, ids: seq<I>, st: Loop<S, I>, kv: Option<seq<S>>)
    requires KeepsRows(e) && |ids| == |input|
  {
    && (st.inRegion && late.Some? ==>
          && |st.rows| == |st.ids| && l <= late.value
          && StockAt(e, W, l, late.value, st.rows, st.ids) == StockAt(e, W, 0, late.value, input, ids))
    && (!st.inRegion && late.Some? ==> kv == Some(StockAt(e, W, 0, late.value, input, ids)))
  }

  lemma WrittenNext<S(!new), X(!new), I(!new)>(e: Engine<S, X, I>, p: Plan, l: nat, late: Option<nat>,
          t: Tail<S, I>, input: seq<S>, ids: seq<I>, st: Loop<S, I>, kv: Option<seq<S>>, next: Loop<S, I>,
          written: Option<seq<S>>)
    requires KeepsRows(e) && Sound(p) && |ids| == |input| && LoopOk(p, l, late, ids, st)
    requires LoopOk(p, l + 1, late, ids, next)
    requires Written(e, p.world, l, late, input, ids, st, kv)
    requires written == if late == Some(l) then Some(st.rows) else None
    requires late != Some(l) ==> next.rows == StockLayer(e, p.world, l, st.rows, st.ids) && next.ids == st.ids
    ensures Written(e, p.world, l + 1, late, input, ids, next, if written.Some? then written else kv)
  {
    hide StockLayer, KeepsRows, Sound, Sharded;
  }

  lemma Starts<S(!new), X(!new), I(!new)>(e: Engine<S, X, I>, p: Plan, n: nat, late: Option<nat>, t: Tail<S, I>,
          wanted: nat -> bool, input: seq<S>, ids: seq<I>)
    requires KeepsRows(e) && Sound(p) && |input| == |ids| == p.rows && TailFits(t, p.rows)
    ensures
      var st := Loop(seq(p.world, r requires 0 <= r < p.world => Slice(p, r, input)), input, ids, true);
      && LoopOk(p, 0, late, ids, st) && Written(e, p.world, 0, late, input, ids, st, None)
      && Owed(e, p.world, 0, n, late, t, wanted, input, ids, StockForward(e, p.world, 0, n, late, t, input, ids),
              StockAux(e, p.world, 0, n, late, t, wanted, input, ids))
  {
    InputSharded(p, input);
    hide Sharded, KeepsRows, StockLayer;
  }

  lemma Ends<S(!new), X(!new), I(!new)>(e: Engine<S, X, I>, p: Plan, n: nat, late: Option<nat>, t: Tail<S, I>,
          wanted: nat -> bool, st: Loop<S, I>, out: seq<S>, owed: seq<seq<S>>, input: seq<S>, ids: seq<I>,
          kv: Option<seq<S>>)
    requires KeepsRows(e) && Sound(p) && |ids| == |input| && LoopOk(p, n, late, ids, st)
    requires Owed(e, p.world, n, n, late, t, wanted, st.rows, st.ids, out, owed)
    requires Written(e, p.world, n, late, input, ids, st, kv)
    ensures owed == [] && out == if st.inRegion then Gather(st.shards) else st.rows
    ensures late.Some? && late.value < n ==> kv == Some(StockAt(e, p.world, 0, late.value, input, ids))
  {
    if st.inRegion { GatherSharded(p, st.shards, st.rows); }
  }

  lemma InputSharded<S>(p: Plan, input: seq<S>)
    requires Sound(p) && |input| == p.rows
    ensures Sharded(p, seq(p.world, r requires 0 <= r < p.world => Slice(p, r, input)), input)
  {}

  /* ------------------------------------------------- the order of a reduction does not matter */

  ghost predicate Commutes<X(!new)>(add: (X, X) -> X) {
    && (forall a, b :: add(a, b) == add(b, a))
    && (forall a, b, c :: add(add(a, b), c) == add(a, add(b, c)))
  }

  function Fold<X>(add: (X, X) -> X, xs: seq<X>): X
    requires xs != []
  {
    if |xs| == 1 then xs[0] else add(Fold(add, xs[..|xs| - 1]), xs[|xs| - 1])
  }

  lemma {:induction false} FoldConcat<X(!new)>(add: (X, X) -> X, a: seq<X>, b: seq<X>)
    requires Commutes(add) && a != [] && b != []
    ensures Fold(add, a + b) == add(Fold(add, a), Fold(add, b))
  {
    hide Commutes;
    var n := |b| - 1;
    assert (a + b)[..|a| + n] == a + b[..n];
    if n > 0 {
      FoldConcat(add, a, b[..n]);
      AddAssoc(add, Fold(add, a), Fold(add, b[..n]), b[n]);
    } else {
      assert a + b[..n] == a;
    }
  }

  lemma AddAssoc<X(!new)>(add: (X, X) -> X, a: X, b: X, c: X)
    requires Commutes(add)
    ensures add(add(a, b), c) == add(a, add(b, c))
  {}

  /** A ring reduce-scatter that starts anywhere adds up to the all-reduce. */
  lemma RotationAgrees<X(!new)>(add: (X, X) -> X, xs: seq<X>, k: nat)
    requires Commutes(add) && xs != [] && k < |xs|
    ensures Fold(add, xs[k..] + xs[..k]) == Fold(add, xs)
  {
    hide Fold, Commutes;
    if k == 0 {
      assert xs[k..] + xs[..k] == xs;
    } else {
      FoldConcat(add, xs[k..], xs[..k]);
      FoldConcat(add, xs[..k], xs[k..]);
      AddCommutes(add, Fold(add, xs[k..]), Fold(add, xs[..k]));
      assert xs[..k] + xs[k..] == xs;
    }
  }

  lemma AddCommutes<X(!new)>(add: (X, X) -> X, a: X, b: X)
    requires Commutes(add)
    ensures add(a, b) == add(b, a)
  {}

  /** With an associative and commutative addition the reduce-scatter and the all-reduce agree. */
  lemma RingAgrees<S, X(!new), I>(e: Engine<S, X, I>, world: nat, add: (X, X) -> X, first: nat -> nat)
    requires Commutes(add) && world > 0 && forall r: nat :: first(r) < world
    requires forall xs: seq<X> | |xs| == world :: e.reduce(xs) == Fold(add, xs)
    requires forall r: nat, xs: seq<X> | |xs| == world :: e.scatter(r, xs) == Fold(add, xs[first(r)..] + xs[..first(r)])
    ensures Agrees(e, world)
  {
    forall r: nat, xs: seq<X> | |xs| == world ensures e.scatter(r, xs) == e.reduce(xs) {
      RotationAgrees(add, xs, first(r));
    }
  }
}
