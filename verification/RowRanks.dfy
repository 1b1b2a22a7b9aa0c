/** All the ranks' lookups together: each rank serves the rows of its own range and zeros for the others,
    so that the sum over the ranks is the table's row (adapter/row_store.cpp, scripts/pack_engram.py). */
module RowRanks {
  import opened RowStore
  import opened RowShard
  import opened RowLookup
  import Pool
  import RowCache

  /** Byte k of the sum of the ranks' rows. */
  function ByteSum(rows: seq<seq<Byte>>, k: nat): nat {
    if rows == [] then 0
    else
      var last := rows[|rows| - 1];
      ByteSum(rows[..|rows| - 1], k) + if k < |last| then last[k] else 0
  }

  lemma {:induction false} BoundMono(rows: nat, a: nat, b: nat, tp: nat)
    requires a <= b <= tp && tp > 0
    ensures Bound(rows, a, tp) <= Bound(rows, b, tp) <= rows
  {
    if a < b { BoundMono(rows, a, b - 1, tp); }
    if b > 0 { BoundOrder(rows, b - 1, tp); } else { BoundOrder(rows, 0, tp); }
  }

  /** row is what rank r of tp gives for id. */
  predicate RankServes(tb: Table, tp: nat, r: nat, id: nat, row: seq<Byte>)
    requires Extent(tb) && id < tb.rows && tp > 0
  {
    var lo, hi := Bound(tb.rows, r, tp), Bound(tb.rows, r + 1, tp);
    hi <= tb.rows && Serves(tb, lo, hi, id, row)
  }

  /** After n ranks the sum is the row if one of them owns it, and zero if not. */
  lemma {:induction false} PrefixSum(tb: Table, id: nat, tp: nat, rows: seq<seq<Byte>>, k: nat)
    requires Extent(tb) && id < tb.rows && k < ROW && |rows| <= tp && tp > 0
    requires forall r: nat | r < |rows| :: RankServes(tb, tp, r, id, rows[r])
    ensures ByteSum(rows, k) == if id < Bound(tb.rows, |rows|, tp) then Row(tb, id)[k] else 0
  {
    hide Row, Bound;
    BoundOrder(tb.rows, 0, tp);
    if rows != [] {
      var n := |rows| - 1;
      PrefixSum(tb, id, tp, rows[..n], k);
      BoundOrder(tb.rows, n, tp);
      assert RankServes(tb, tp, n, id, rows[n]);
    }
  }

  /** Each row has one owner among the ranks: what they serve for it adds up to the row, byte by byte. */
  lemma RanksAddUp(tb: Table, id: nat, tp: nat, rows: seq<seq<Byte>>)
    requires Extent(tb) && id < tb.rows && |rows| == tp > 0
    requires forall r: nat | r < tp :: RankServes(tb, tp, r, id, rows[r])
    ensures forall k: nat | k < ROW :: ByteSum(rows, k) == Row(tb, id)[k]
  {
    hide Row, Bound, Serves;
    BoundOrder(tb.rows, 0, tp);
    forall k: nat | k < ROW ensures ByteSum(rows, k) == Row(tb, id)[k] { PrefixSum(tb, id, tp, rows, k); }
  }

  /** The outputs hold the rows of the ids below `bound`, and zeros for the others. */
  ghost predicate Added(tb: Table, ids: seq<int>, bound: nat, weights: seq<int>, scales: seq<int>)
    requires Extent(tb) && bound <= tb.rows && |weights| == |ids| * WEIGHT && |scales| == |ids| * SCALE
  {
    forall i: nat, k: nat | i < |ids| && k < ROW ::
      OutRow(weights, scales, i)[k] == if 0 <= ids[i] < bound then Row(tb, ids[i])[k] else 0
  }

  lemma OutRowAt<T>(weights: seq<T>, scales: seq<T>, i: nat, k: nat)
    requires i * WEIGHT + WEIGHT <= |weights| && i * SCALE + SCALE <= |scales| && k < ROW
    ensures OutRow(weights, scales, i)[k]
            == if k < WEIGHT then weights[i * WEIGHT + k] else scales[i * SCALE + (k - WEIGHT)]
  {}

  lemma RankAdded(tb: Table, ids: seq<int>, lo: nat, hi: nat, was: seq<int>, wasScales: seq<int>, ws: seq<Byte>,
          ss: seq<Byte>, now: seq<int>, nowScales: seq<int>)
    requires Extent(tb) && lo <= hi <= tb.rows && forall i | 0 <= i < |ids| :: 0 <= ids[i] < tb.rows
    requires |was| == |ws| == |now| == |ids| * WEIGHT && |wasScales| == |ss| == |nowScales| == |ids| * SCALE
    requires Added(tb, ids, lo, was, wasScales)
    requires forall i: nat | i < |ids| && lo <= ids[i] < hi :: OutRow(ws, ss, i) == Row(tb, ids[i])
    requires forall i: nat, k: nat | i < |ids| && !(lo <= ids[i] < hi) && k < ROW :: OutRow(ws, ss, i)[k] == 0
    requires forall j | 0 <= j < |now| :: now[j] == was[j] + ws[j]
    requires forall j | 0 <= j < |nowScales| :: nowScales[j] == wasScales[j] + ss[j]
    ensures Added(tb, ids, hi, now, nowScales)
  {
    hide Row, OutRow;
    forall i: nat, k: nat | i < |ids| && k < ROW
      ensures OutRow(now, nowScales, i)[k] == if 0 <= ids[i] < hi then Row(tb, ids[i])[k] else 0
    {
      OutRowAt(now, nowScales, i, k);
      OutRowAt(was, wasScales, i, k);
      OutRowAt(ws, ss, i, k);
    }
  }

  lemma NothingAdded(tb: Table, ids: seq<int>, weights: seq<int>, scales: seq<int>)
    requires Extent(tb) && |weights| == |ids| * WEIGHT && |scales| == |ids| * SCALE
    requires (forall j | 0 <= j < |weights| :: weights[j] == 0) && forall j | 0 <= j < |scales| :: scales[j] == 0
    ensures Added(tb, ids, 0, weights, scales)
  {
    hide Row, OutRow;
    forall i: nat, k: nat | i < |ids| && k < ROW ensures OutRow(weights, scales, i)[k] == 0 {
      OutRowAt(weights, scales, i, k);
    }
  }

  method AddBytes(total: array<int>, out: array<Byte>)
    requires total.Length == out.Length
    modifies total
    ensures forall j | 0 <= j < total.Length :: total[j] == old(total[j]) + out[j]
  {
    for j := 0 to total.Length
      invariant forall i | 0 <= i < j :: total[i] == old(total[i]) + out[i]
      invariant forall i | j <= i < total.Length :: total[i] == old(total[i])
    {
      total[j] := total[j] + out[j];
    }
  }

  /** Every rank of tp serves the same ids from its own range, and the outputs are added: every byte of both
      outputs is the table's, unless some id is outside the table. */
  method ServeAll(tb: Table, tp: nat, ids: seq<int>, fetched: seq<nat -> seq<Byte>>)
    returns (ok: bool, weights: array<int>, scales: array<int>)
    requires Extent(tb) && |fetched| == tp > 0
    requires forall r: nat, id: nat | r < tp && id < tb.rows ::
               Bound(tb.rows, r, tp) <= id < Bound(tb.rows, r + 1, tp) ==> fetched[r](id) == Row(tb, id)
    ensures ok <==> forall i | 0 <= i < |ids| :: 0 <= ids[i] < tb.rows
    ensures weights.Length == |ids| * WEIGHT && scales.Length == |ids| * SCALE
    ensures ok ==> forall i: nat, k: nat | i < |ids| && k < ROW ::
              Row(tb, ids[i])[k] == if k < WEIGHT then weights[i * WEIGHT + k] else scales[i * SCALE + (k - WEIGHT)]
  {
    hide Row, Bound, OutRow, Added;
    weights := new int[|ids| * WEIGHT](_ => 0);
    scales := new int[|ids| * SCALE](_ => 0);
    BoundOrder(tb.rows, 0, tp);
    NothingAdded(tb, ids, weights[..], scales[..]);
    ok := true;
    for r := 0 to tp
      invariant ok && (r > 0 ==> forall i | 0 <= i < |ids| :: 0 <= ids[i] < tb.rows)
      invariant Bound(tb.rows, r, tp) <= tb.rows && Added(tb, ids, Bound(tb.rows, r, tp), weights[..], scales[..])
    {
      BoundOrder(tb.rows, r, tp);
      var lo, hi := Bound(tb.rows, r, tp), Bound(tb.rows, r + 1, tp);
      var ws, ss := new Byte[|ids| * WEIGHT](_ => 0), new Byte[|ids| * SCALE](_ => 0);
      ok := Serve(tb, lo, hi, ids, 0, |ids|, fetched[r], ws, ss);
      if !ok { return; }
      ghost var was, wasScales := weights[..], scales[..];
      AddBytes(weights, ws);
      AddBytes(scales, ss);
      RankAdded(tb, ids, lo, hi, was, wasScales, ws[..], ss[..], weights[..], scales[..]);
    }
    AllAdded(tb, ids, weights[..], scales[..]);
  }

  lemma AllAdded(tb: Table, ids: seq<int>, weights: seq<int>, scales: seq<int>)
    requires Extent(tb) && |weights| == |ids| * WEIGHT && |scales| == |ids| * SCALE
    requires (forall i | 0 <= i < |ids| :: 0 <= ids[i] < tb.rows) && Added(tb, ids, tb.rows, weights, scales)
    ensures forall i: nat, k: nat | i < |ids| && k < ROW ::
              Row(tb, ids[i])[k] == if k < WEIGHT then weights[i * WEIGHT + k] else scales[i * SCALE + (k - WEIGHT)]
  {
    hide Row, OutRow;
    forall i: nat, k: nat | i < |ids| && k < ROW
      ensures Row(tb, ids[i])[k] == if k < WEIGHT then weights[i * WEIGHT + k] else scales[i * SCALE + (k - WEIGHT)]
    {
      OutRowAt(weights, scales, i, k);
      assert OutRow(weights, scales, i)[k] == Row(tb, ids[i])[k];
    }
  }

  /* ------------------------------------------------------------------ the same for whole lookups */

  /** One rank's lookup: its store, the jobs of its pool, and a schedule after which run() has returned for job j. */
  datatype Lookup = Lookup(c: RowCache.Config, works: seq<Work>, n: nat, acts: seq<Pool.Action>, s: Pool.State,
          out: Outputs, j: nat)

  ghost predicate Finished(k: Lookup) {
    && RowCache.Good(k.c) && (forall i | 0 <= i < |k.works| :: Fetches(k.c, k.works[i]))
    && Run(k.c, k.works, Pool.Init(k.n), map[], k.acts, k.s, k.out)
    && Pool.Jobs(k.acts) == seq(|k.works|, i requires 0 <= i < |k.works| => |k.works[i]|)
    && Pool.Returned(k.s, k.j)
  }

  /** What the lookup leaves in output slot i. */
  function SlotOf(k: Lookup, i: nat): seq<Byte> {
    if k.j in k.out && i < |k.out[k.j]| && k.out[k.j][i].Some? then k.out[k.j][i].value else []
  }

  /** Whatever the schedules of the ranks' pools and caches were: if slot i of every rank's job is for the same
      id, the sum of what the ranks leave there is the table's row. */
  lemma LookupsAddUp(tb: Table, tp: nat, ks: seq<Lookup>, i: nat, id: nat)
    requires |ks| == tp > 0 && forall r: nat | r < tp :: Finished(ks[r])
    requires forall r: nat | r < tp ::
               ks[r].c.tb == tb && ks[r].c.lo == Bound(tb.rows, r, tp) && ks[r].c.hi == Bound(tb.rows, r + 1, tp)
    requires forall r: nat | r < tp :: 1 <= ks[r].j <= |ks[r].works| && i < |ks[r].works[ks[r].j - 1]|
               && ks[r].works[ks[r].j - 1][i].id == id
    ensures Extent(tb) && id < tb.rows && forall r: nat | r < tp :: |SlotOf(ks[r], i)| == ROW
    ensures forall k: nat | k < ROW ::
              ByteSum(seq(tp, r requires 0 <= r < tp => SlotOf(ks[r], i)), k) == Row(tb, id)[k]
  {
    hide Row, Bound, Finished, Serves, SlotOf;
    var rows := seq(tp, r requires 0 <= r < tp => SlotOf(ks[r], i));
    forall r: nat | r < tp
      ensures Extent(tb) && id < tb.rows && |SlotOf(ks[r], i)| == ROW && RankServes(tb, tp, r, id, SlotOf(ks[r], i))
    {
      SlotServes(ks[r], i);
    }
    assert |SlotOf(ks[0], i)| == ROW;
    RanksAddUp(tb, id, tp, rows);
  }

  lemma SlotServes(k: Lookup, i: nat)
    requires Finished(k) && 1 <= k.j <= |k.works| && i < |k.works[k.j - 1]|
    ensures Extent(k.c.tb) && k.c.hi <= k.c.tb.rows && 0 <= k.works[k.j - 1][i].id < k.c.tb.rows
    ensures |SlotOf(k, i)| == ROW && Serves(k.c.tb, k.c.lo, k.c.hi, k.works[k.j - 1][i].id, SlotOf(k, i))
  {
    hide Run, Fetches, Row, Pool.Returned;
    LookupDelivers(k.c, k.works, k.n, k.acts, k.s, k.out, k.j);
    assert k.out[k.j][i].Some?;
  }
}
