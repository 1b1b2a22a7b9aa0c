/** Which bytes a rank's store may serve: the ownership range, the pinned scales and the packed shard
    (adapter/row_store.cpp, scripts/pack_engram.py). */
module RowShard {
  import opened Options
  import opened IntMath
  import opened Seqs
  import opened RowStore

  const MAGIC: nat := 0x31344e4531565344

  datatype Header = Header(magic: nat, layer: nat, lo: nat, hi: nat, rows: nat, rowBytes: nat)

  /** A packed shard: its header page decoded, and the whole file. */
  datatype Shard = Shard(header: Header, file: seq<Byte>)

  /** Where record k of a shard starts. */
  function RecordAt(k: nat): nat { HEADER + k * ROW }

  /** Record k of a shard that starts at row lo is the table's row. */
  ghost predicate RecordHolds(tb: Table, file: seq<Byte>, lo: nat, k: nat)
    requires Extent(tb) && lo + k < tb.rows
  {
    RecordAt(k) + ROW <= |file| && file[RecordAt(k)..RecordAt(k) + ROW] == Row(tb, lo + k)
  }

  /** The shard's records are the table's rows lo .. hi - 1. */
  ghost predicate PackedHolds(tb: Table, file: seq<Byte>, lo: nat, hi: nat)
    requires Extent(tb) && hi <= tb.rows
  {
    forall k: nat | lo + k < hi :: RecordHolds(tb, file, lo, k)
  }

  /** A shard whose records are the rows its header names, as the pack step writes it. */
  ghost predicate Honest(tb: Table, sh: Shard)
    requires Extent(tb)
  {
    sh.header.lo <= sh.header.hi <= tb.rows ==> PackedHolds(tb, sh.file, sh.header.lo, sh.header.hi)
  }

  /** First row owned by a rank. */
  function Bound(rows: nat, rank: nat, tp: nat): nat
    requires tp > 0
  {
    Quotient(rows * rank, tp)
  }

  /** pack_layer: whole chunks of weights and scales are read, and written record by record. */
  method PackLayer(tb: Table, layer: nat, rank: nat, tp: nat, chunkRows: nat) returns (sh: Shard)
    requires Extent(tb) && rank < tp && chunkRows > 0
    ensures sh.header == Header(MAGIC, layer, Bound(tb.rows, rank, tp), Bound(tb.rows, rank + 1, tp), tb.rows, ROW)
    ensures sh.header.lo <= sh.header.hi <= tb.rows
    ensures PackedHolds(tb, sh.file, sh.header.lo, sh.header.hi)
    ensures |sh.file| == RecordAt(sh.header.hi - sh.header.lo)
  {
    BoundOrder(tb.rows, rank, tp);
    var lo, hi := Bound(tb.rows, rank, tp), Bound(tb.rows, rank + 1, tp);
    hide Bound, Row;
    var file: seq<Byte> := seq(HEADER, _ => 0);
    var start := lo;
    while start < hi
      invariant lo <= start <= hi
      invariant |file| == RecordAt(start - lo)
      invariant PackedHolds(tb, file, lo, start)
    {
      var stop := if start + chunkRows <= hi then start + chunkRows else hi;
      file := PackChunk(tb, file, lo, start, stop);
      start := stop;
    }
    sh := Shard(Header(MAGIC, layer, lo, hi, tb.rows, ROW), file);
  }

  method PackChunk(tb: Table, sofar: seq<Byte>, lo: nat, start: nat, stop: nat) returns (file: seq<Byte>)
    requires Extent(tb) && lo <= start <= stop <= tb.rows
    requires |sofar| == RecordAt(start - lo) && PackedHolds(tb, sofar, lo, start)
    ensures |file| == RecordAt(stop - lo) && PackedHolds(tb, file, lo, stop)
  {
    var weights := tb.file[tb.woff + start * WEIGHT..tb.woff + stop * WEIGHT];
    var scales := tb.file[tb.soff + start * SCALE..tb.soff + stop * SCALE];
    file := sofar;
    hide Row, PackedHolds;
    for i := 0 to stop - start
      invariant |file| == RecordAt(start + i - lo)
      invariant PackedHolds(tb, file, lo, start + i)
    {
      var record := weights[i * WEIGHT..i * WEIGHT + WEIGHT] + scales[i * SCALE..i * SCALE + SCALE];
      RecordIsRow(tb, start, stop, i, weights, scales);
      AppendRow(tb, file, lo, start + i);
      file := file + record;
    }
  }

  lemma RecordIsRow(tb: Table, start: nat, stop: nat, i: nat, weights: seq<Byte>, scales: seq<Byte>)
    requires Extent(tb) && start + i < stop <= tb.rows
    requires weights == tb.file[tb.woff + start * WEIGHT..tb.woff + stop * WEIGHT]
    requires scales == tb.file[tb.soff + start * SCALE..tb.soff + stop * SCALE]
    ensures weights[i * WEIGHT..i * WEIGHT + WEIGHT] + scales[i * SCALE..i * SCALE + SCALE] == Row(tb, start + i)
  {
    RunOfRecords(tb.file, tb.woff, start, stop, i, WEIGHT, weights);
    RunOfRecords(tb.file, tb.soff, start, stop, i, SCALE, scales);
  }

  lemma AppendRow(tb: Table, file: seq<Byte>, lo: nat, id: nat)
    requires Extent(tb) && lo <= id < tb.rows && PackedHolds(tb, file, lo, id) && |file| == RecordAt(id - lo)
    ensures |file + Row(tb, id)| == RecordAt(id + 1 - lo) && PackedHolds(tb, file + Row(tb, id), lo, id + 1)
  {
    hide Row;
    var file' := file + Row(tb, id);
    forall k: nat | lo + k < id + 1 ensures RecordHolds(tb, file', lo, k) {
      if lo + k < id {
        assert RecordHolds(tb, file, lo, k);
        InPrefix(file, file', RecordAt(k), ROW);
      } else {
        assert file'[RecordAt(k)..RecordAt(k) + ROW] == Row(tb, id);
      }
    }
  }

  /** The ranks' ranges follow each other and end at the table's end. */
  lemma BoundOrder(rows: nat, rank: nat, tp: nat)
    requires rank < tp
    ensures Bound(rows, rank, tp) <= Bound(rows, rank + 1, tp) <= rows
    ensures Bound(rows, 0, tp) == 0 && Bound(rows, tp, tp) == rows
    ensures Bound(rows, rank, tp) * tp <= rows * rank < Bound(rows, rank, tp) * tp + tp
  {
    hide Quotient;
    MulMono(rank, rank + 1, rows);
    MulMono(rank + 1, tp, rows);
    QuotientIs(rows * tp, tp, rows);
    QuotientIs(0, tp, 0);
    QuotientMono(rows * rank, rows * (rank + 1), tp);
    QuotientMono(rows * (rank + 1), rows * tp, tp);
  }

  /* ------------------------------------------------------- moving the range under a shard */

  ghost predicate SameRow(tb: Table, lo: nat, newLo: nat, k: nat)
    requires Extent(tb) && lo + k < tb.rows && newLo + k < tb.rows
  {
    Row(tb, newLo + k) == Row(tb, lo + k)
  }

  /** The n rows from newLo are, one by one, the rows from lo. */
  ghost predicate SameRows(tb: Table, lo: nat, newLo: nat, n: nat)
    requires Extent(tb) && lo + n <= tb.rows && newLo + n <= tb.rows
  {
    forall k: nat | k < n :: SameRow(tb, lo, newLo, k)
  }

  ghost predicate DistinctRows(tb: Table)
    requires Extent(tb)
  {
    forall i: nat, j: nat | i < j < tb.rows :: Row(tb, i) != Row(tb, j)
  }

  /** A new range for which a shard of [lo, hi) still serves: none of it, or a beginning of it. */
  predicate SafeRange(lo: nat, hi: nat, newLo: nat, newHi: nat) { newLo == newHi || (newLo == lo && newHi <= hi) }

  /** A shard of exactly the rows [lo, hi) holds another range if and only if that range is no longer and
      its rows are, one by one, the shard's. */
  lemma ShardHoldsIff(tb: Table, file: seq<Byte>, lo: nat, hi: nat, newLo: nat, newHi: nat)
    requires Extent(tb) && lo <= hi <= tb.rows && newLo <= newHi <= tb.rows && PackedHolds(tb, file, lo, hi)
    requires |file| == RecordAt(hi - lo) || newHi - newLo <= hi - lo
    ensures PackedHolds(tb, file, newLo, newHi) <==>
            newHi - newLo <= hi - lo && SameRows(tb, lo, newLo, newHi - newLo)
  {
    hide Row;
    var n := newHi - newLo;
    if PackedHolds(tb, file, newLo, newHi) {
      if n > 0 { assert RecordHolds(tb, file, newLo, n - 1); }
      assert n <= hi - lo;
      forall k: nat | k < n ensures SameRow(tb, lo, newLo, k) { RecordsAgree(tb, file, lo, newLo, k); }
    } else if n <= hi - lo && SameRows(tb, lo, newLo, n) {
      var k: nat :| newLo + k < newHi && !RecordHolds(tb, file, newLo, k);
      assert SameRow(tb, lo, newLo, k);
      RecordsAgree(tb, file, lo, newLo, k);
    }
  }

  /** Record k serves both ranges exactly if their rows agree. */
  lemma RecordsAgree(tb: Table, file: seq<Byte>, lo: nat, newLo: nat, k: nat)
    requires Extent(tb) && lo + k < tb.rows && newLo + k < tb.rows && RecordHolds(tb, file, lo, k)
    ensures RecordHolds(tb, file, newLo, k) <==> SameRow(tb, lo, newLo, k)
  {
    hide Row;
  }

  /** When no two rows of the table are equal, that is a condition on the two ranges alone. */
  lemma SafeRangeIff(tb: Table, file: seq<Byte>, lo: nat, hi: nat, newLo: nat, newHi: nat)
    requires Extent(tb) && lo <= hi <= tb.rows && newLo <= newHi <= tb.rows && PackedHolds(tb, file, lo, hi)
    requires |file| == RecordAt(hi - lo) || newHi - newLo <= hi - lo
    ensures SafeRange(lo, hi, newLo, newHi) ==> PackedHolds(tb, file, newLo, newHi)
    ensures DistinctRows(tb) ==> (PackedHolds(tb, file, newLo, newHi) <==> SafeRange(lo, hi, newLo, newHi))
  {
    hide Row;
    ShardHoldsIff(tb, file, lo, hi, newLo, newHi);
    if newLo == lo && newHi <= hi { assert SameRows(tb, lo, newLo, newHi - newLo); }
    if newHi - newLo <= hi - lo && newLo < newHi && SameRows(tb, lo, newLo, newHi - newLo) {
      assert SameRow(tb, lo, newLo, 0);
    }
    hide PackedHolds;
  }

  /** The two facts above, with no condition on the file's size for the sufficient half. */
  lemma Moved(tb: Table, file: seq<Byte>, lo: nat, hi: nat, newLo: nat, newHi: nat)
    requires Extent(tb) && lo <= hi <= tb.rows && newLo <= newHi <= tb.rows && PackedHolds(tb, file, lo, hi)
    ensures SafeRange(lo, hi, newLo, newHi) ==> PackedHolds(tb, file, newLo, newHi)
    ensures DistinctRows(tb) && (|file| == RecordAt(hi - lo) || newHi - newLo <= hi - lo) ==>
              (PackedHolds(tb, file, newLo, newHi) <==> SafeRange(lo, hi, newLo, newHi))
  {
    if |file| == RecordAt(hi - lo) || newHi - newLo <= hi - lo { SafeRangeIff(tb, file, lo, hi, newLo, newHi); }
  }

  /** One rank's store. */
  class Store {
    const tb: Table
    var lo: nat
    var hi: nat
    var scales: Option<seq<Byte>>
    var packed: Option<seq<Byte>>

    ghost predicate Valid()
      reads this
    {
      && Extent(tb) && lo <= hi <= tb.rows
      && (scales.Some? ==> scales.value == OwnedScales(tb, lo, hi))
      && (packed.Some? ==> PackedHolds(tb, packed.value, lo, hi))
    }

    constructor Open(tb: Table)
      requires OpenAccepts(tb)
      ensures Valid() && this.tb == tb && lo == 0 && hi == tb.rows && scales.None? && packed.None?
    {
      OpenIsExtent(tb);
      this.tb := tb;
      lo, hi, scales, packed := 0, tb.rows, None, None;
    }

    /** row_store_range.  The scale shard may not move once pinned; the packed shard is not looked at,
        so a range that is not a beginning of the shard's makes the store serve other rows. */
    method Range(newLo: nat, newHi: nat, pin: bool, resident: bool, os: (nat, nat) -> int) returns (ok: bool)
      requires Valid() && forall o: nat, w: nat :: MayReturn(tb.file, o, w, os(o, w))
      modifies this
      ensures !ok <==> newLo > newHi || newHi > tb.rows || (old(scales).Some? && (newLo != old(lo) || newHi != old(hi)))
      ensures !ok ==> unchanged(this)
      ensures ok ==> lo == newLo && hi == newHi && packed == old(packed)
      ensures ok && (old(scales).Some? || !pin || newLo == newHi) ==> scales == old(scales)
      ensures scales.Some? && ok ==> scales.value == OwnedScales(tb, lo, hi)
      ensures ok && (packed.None? || SafeRange(old(lo), old(hi), newLo, newHi)) ==> Valid()
      ensures ok && packed.Some? && DistinctRows(tb) &&
              (|packed.value| == RecordAt(old(hi) - old(lo)) || newHi - newLo <= old(hi) - old(lo)) ==>
                (Valid() <==> SafeRange(old(lo), old(hi), newLo, newHi))
    {
      hide PackedHolds, Row, DistinctRows, SafeRange, OwnedScales, Extent, MayReturn;
      if newLo > newHi || newHi > tb.rows { return false; }
      if scales.Some? && (newLo != lo || newHi != hi) { return false; }
      if packed.Some? { Moved(tb, packed.value, lo, hi, newLo, newHi); }
      lo, hi := newLo, newHi;
      if scales.None? && hi > lo && pin { scales := PinScales(tb, resident, lo, hi, os); }
      return true;
    }

    /** row_store_attach_packed: 0 when there is no shard, abort when it is not this rank's. */
    method AttachPacked(sh: Option<Shard>, layer: nat) returns (r: Outcome<nat>)
      requires Valid()
      modifies this`packed
      ensures sh.None? || Honest(tb, sh.value) ==> Valid()
      ensures r != Ok(1) ==> Valid()
      ensures r == Ok(1) <==> sh.Some? && sh.value.header == Header(MAGIC, layer, lo, hi, tb.rows, ROW)
                              && |sh.value.file| >= HEADER + (hi - lo) * ROW
      ensures r == Ok(0) <==> sh.None?
      ensures packed == if r == Ok(1) then Some(sh.value.file) else old(packed)
    {
      if sh.None? { return Ok(0); }
      var h := sh.value.header;
      if h.magic != MAGIC || h.layer != layer || h.lo != lo || h.hi != hi || h.rows != tb.rows || h.rowBytes != ROW {
        return Abort;
      }
      if |sh.value.file| < HEADER + (h.hi - h.lo) * ROW { return Abort; }
      packed := Some(sh.value.file);
      return Ok(1);
    }
  }

  /* --------------------------------------------------------------- a range that goes wrong */

  /** Two rows, the first all zeros, the second all ones. */
  function TwoRows(): (tb: Table)
    ensures Extent(tb) && OpenAccepts(tb) && tb.rows == 2
  {
    var file := seq(2 * WEIGHT + 2 * SCALE, i => if i < WEIGHT || 2 * WEIGHT <= i < 2 * WEIGHT + SCALE then 0 else 1);
    Table(file, 2, 0, 2 * WEIGHT)
  }

  lemma TwoRowsDiffer()
    ensures DistinctRows(TwoRows())
  {
    assert Row(TwoRows(), 0)[0] == 0 && Row(TwoRows(), 1)[0] == 1;
  }

  /** Attach the shard of [0, 1), then move the range to [1, 2): the call succeeds, and the store serves
      row 0 for row 1. */
  method RangeAfterAttach() returns (s: Store, ok: bool)
    ensures ok && s.tb == TwoRows() && s.lo == 1 && s.hi == 2 && s.packed.Some? && !s.Valid()
    ensures |s.packed.value| >= RecordAt(1)
    ensures s.packed.value[RecordAt(0)..RecordAt(1)] == Row(TwoRows(), 0) != Row(TwoRows(), 1)
  {
    var tb := TwoRows();
    var os := (o: nat, w: nat) => -1;
    TwoRowsDiffer();
    s := new Store.Open(tb);
    ok := s.Range(0, 1, false, false, os);
    var sh := PackLayer(tb, 7, 0, 2, 1);
    assert sh.header.lo == 0 && sh.header.hi == 1 by { QuotientIs(0, 2, 0); QuotientIs(2, 2, 1); }
    hide PackedHolds, Row, TwoRows, Bound;
    var r := s.AttachPacked(Some(sh), 7);
    assert RecordHolds(tb, sh.file, 0, 0);
    assert r == Ok(1) && s.packed == Some(sh.file);
    assert |sh.file| == RecordAt(1);
    assert !SafeRange(0, 1, 1, 2);
    ok := s.Range(1, 2, false, false, os);
  }
}
