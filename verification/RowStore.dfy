/** The sequential readers of adapter/row_store.cpp: the file is an immutable byte sequence, and the
    operating system may return short, failed or interrupted reads. */
module RowStore {
  import opened Options
  import opened IntMath
  import opened Seqs

  type Byte = x: int | 0 <= x < 256

  const ROW: nat := 264      // 256 B weight + 8 B scale
  const WEIGHT: nat := 256
  const SCALE: nat := 8
  const PAGE: nat := 4096
  const HEADER: nat := 4096  // of a packed shard
  const SPAN: nat := 0x80_0000

  datatype Outcome<+T> = Ok(value: T) | Abort

  /** The weight matrix starts at woff, the scales at soff. */
  datatype Table = Table(file: seq<Byte>, rows: nat, woff: nat, soff: nat)

  predicate Extent(tb: Table) {
    tb.woff + tb.rows * WEIGHT <= |tb.file| && tb.soff + tb.rows * SCALE <= |tb.file|
  }

  function Row(tb: Table, id: nat): (r: seq<Byte>)
    requires Extent(tb) && id < tb.rows
    ensures |r| == ROW
  {
    var w, s := tb.woff + id * WEIGHT, tb.soff + id * SCALE;
    tb.file[w..w + WEIGHT] + tb.file[s..s + SCALE]
  }

  /** row_store_open's test of the table against the file size. */
  predicate OpenAccepts(tb: Table) {
    var size := |tb.file|;
    && tb.woff <= size && tb.soff <= size
    && tb.rows <= (size - tb.woff) / WEIGHT && tb.rows <= (size - tb.soff) / SCALE
  }

  /** It accepts exactly the tables whose rows all lie inside the file. */
  lemma OpenIsExtent(tb: Table)
    ensures OpenAccepts(tb) <==> Extent(tb)
  {}

  /** Cache geometry: sets of `ways` slots, each slot a row and a key, each set one cursor byte. */
  function CacheSets(budget: nat, ways: nat): nat { Quotient(budget, SetBytes(ways)) }

  function SetBytes(ways: nat): (n: nat)
    ensures n > 0
  {
    (ROW + 8) * ways + 1
  }

  function CacheBytes(sets: nat, ways: nat): nat { sets * ways * (ROW + 8) + sets }

  /** The cache takes no more than the budget, and one more set would not fit. */
  lemma CacheWithinBudget(budget: nat, ways: nat)
    ensures CacheBytes(CacheSets(budget, ways), ways) <= budget
    ensures budget < CacheBytes(CacheSets(budget, ways) + 1, ways)
  {
    hide CacheBytes, SetBytes;
    var sets, per := CacheSets(budget, ways), SetBytes(ways);
    Bytes(sets, ways);
    Bytes(sets + 1, ways);
    assert (sets + 1) * per == sets * per + per;
  }

  lemma Bytes(sets: nat, ways: nat)
    ensures CacheBytes(sets, ways) == sets * SetBytes(ways)
  {
    assert sets * ((ROW + 8) * ways) == sets * ways * (ROW + 8);
  }

  /** What pread may answer: a failure, or any prefix of what the file still holds. */
  predicate MayReturn(file: seq<Byte>, offset: nat, want: nat, got: int) {
    -1 <= got <= Min(want, Max(|file| - offset, 0))
  }

  method Pread(file: seq<Byte>, offset: nat, want: nat, got: int, buf: array<Byte>)
    requires want <= buf.Length && MayReturn(file, offset, want, got)
    modifies buf
    ensures got > 0 ==> offset + got <= |file|
    ensures forall i | 0 <= i < got :: buf[i] == file[offset + i]
  {
    var k := 0;
    while k < got
      invariant 0 <= k <= Max(got, 0)
      invariant forall i | 0 <= i < k :: buf[i] == file[offset + i]
    {
      buf[k] := file[offset + k];
      k := k + 1;
    }
  }

  /** `interrupts` preads fail with EINTR before the one that returns `got`. */
  method ReadFrom(file: seq<Byte>, resident: bool, offset: nat, length: nat, interrupts: nat, got: int)
    returns (out: Outcome<seq<Byte>>)
    requires 0 < length <= PAGE
    requires resident ==> offset + length <= |file|
    requires var delta := offset % PAGE;
             MayReturn(file, offset - delta, (delta + length + PAGE - 1) / PAGE * PAGE, got)
    ensures out.Ok? ==> offset + length <= |file| && out.value == file[offset..offset + length]
    ensures out.Abort? <==> !resident && got < offset % PAGE + length
  {
    if resident { return Ok(file[offset..offset + length]); }
    var page := new Byte[2 * PAGE](_ => 0);
    var base := offset - offset % PAGE;
    var delta := offset - base;
    var requested := (delta + length + PAGE - 1) / PAGE * PAGE;
    var left := interrupts;
    while left > 0 {
      Pread(file, base, requested, -1, page);
      left := left - 1;
    }
    Pread(file, base, requested, got, page);
    if got < 0 || got < delta + length { return Abort; }
    ghost var read, want := page[delta..delta + length], file[offset..offset + length];
    forall i | 0 <= i < length ensures read[i] == want[i] {
      assert read[i] == page[delta + i] == file[base + (delta + i)];
    }
    out := Ok(page[delta..delta + length]);
  }

  /** The scales of rows [lo, hi). */
  function OwnedScales(tb: Table, lo: nat, hi: nat): seq<Byte>
    requires Extent(tb) && lo <= hi <= tb.rows
  {
    tb.file[tb.soff + lo * SCALE..tb.soff + hi * SCALE]
  }

  /** Pins rows [lo, hi) of the scales.  `os` answers the pread at a given offset and size. */
  method PinScales(tb: Table, resident: bool, lo: nat, hi: nat, os: (nat, nat) -> int)
    returns (pinned: Option<seq<Byte>>)
    requires Extent(tb) && lo <= hi <= tb.rows
    requires forall o: nat, w: nat :: MayReturn(tb.file, o, w, os(o, w))
    ensures pinned.Some? ==> pinned.value == OwnedScales(tb, lo, hi)
    ensures lo == hi ==> pinned.None?
    ensures lo < hi && (resident || forall o: nat, w: nat | o < |tb.file| && w > 0 :: os(o, w) > 0) ==> pinned.Some?
  {
    hide Filled;
    if lo == hi { return None; }
    var start, end := tb.soff + lo * SCALE, tb.soff + hi * SCALE;
    var out := new Byte[end - start](_ => 0);
    if resident { return Some(tb.file[start..end]); }
    var buffer := new Byte[SPAN](_ => 0);
    var offset := start - start % PAGE;
    FilledEnds(out[..], tb.file, offset, start, end);
    while offset < end
      invariant 0 <= offset && Filled(out[..], tb.file, offset, start, end)
      decreases end - offset
    {
      var want := Min(SPAN, (end - offset + PAGE - 1) / PAGE * PAGE);
      var got := os(offset, want);
      assert MayReturn(tb.file, offset, want, got);
      Pread(tb.file, offset, want, got, buffer);
      if got <= 0 { return None; }
      Merge(tb.file, buffer, offset, got, start, end, out);
      offset := offset + got;
    }
    FilledEnds(out[..], tb.file, offset, start, end);
    return Some(out[..]);
  }

  /** Bytes of [start, end) that lie before offset. */
  function Covered(offset: int, start: nat, end: nat): nat
    requires start <= end
  {
    if offset <= start then 0 else if offset <= end then offset - start else end - start
  }

  /** out holds what of the file's [start, end) lies before offset. */
  predicate Filled(out: seq<Byte>, file: seq<Byte>, offset: int, start: nat, end: nat)
    requires start <= end <= |file| && |out| == end - start
  {
    out[..Covered(offset, start, end)] == file[start..start + Covered(offset, start, end)]
  }

  lemma FilledEnds(out: seq<Byte>, file: seq<Byte>, offset: int, start: nat, end: nat)
    requires start <= end <= |file| && |out| == end - start
    ensures offset <= start ==> Filled(out, file, offset, start, end)
    ensures offset >= end && Filled(out, file, offset, start, end) ==> out == file[start..end]
  {
    assert out == out[..end - start];
  }

  /** Copies what buffer, read at offset, holds of [start, end). */
  method Merge(file: seq<Byte>, buffer: array<Byte>, offset: nat, got: nat, start: nat, end: nat, out: array<Byte>)
    requires start <= end <= |file| && out.Length == end - start && buffer != out && offset < end
    requires 0 < got <= buffer.Length && offset + got <= |file|
    requires forall i | 0 <= i < got :: buffer[i] == file[offset + i]
    requires Filled(out[..], file, offset, start, end)
    modifies out
    ensures Filled(out[..], file, offset + got, start, end)
  {
    var l, h := Max(offset, start), Min(offset + got, end);
    if h > l { CopyIn(file, buffer, l - offset, h - offset, offset, out, l - start); }
  }

  /** memcpy of buffer[a..b], which holds the file from `at`, behind out[..k]. */
  method CopyIn(file: seq<Byte>, buffer: array<Byte>, a: nat, b: nat, at: nat, out: array<Byte>, k: nat)
    requires a <= b <= buffer.Length && at + b <= |file| && k + (b - a) <= out.Length && buffer != out
    requires k <= at + a && forall i | a <= i < b :: buffer[i] == file[at + i]
    requires out[..k] == file[at + a - k..at + a]
    modifies out
    ensures out[..k + (b - a)] == file[at + a - k..at + b]
  {
    var i := a;
    while i < b
      invariant a <= i <= b
      invariant out[..k + (i - a)] == file[at + a - k..at + i]
      invariant forall j | a <= j < b :: buffer[j] == file[at + j]
    {
      out[k + (i - a)] := buffer[i];
      assert out[..k + (i - a) + 1] == out[..k + (i - a)] + [file[at + i]];
      i := i + 1;
    }
  }

  /** Record i of a run of w-byte records that starts with record `start`. */
  lemma RunOfRecords(file: seq<Byte>, off: nat, start: nat, stop: nat, i: nat, w: nat, run: seq<Byte>)
    requires start + i < stop && off + stop * w <= |file| && start * w <= stop * w
    requires run == file[off + start * w..off + stop * w]
    ensures 0 <= i * w && i * w + w <= |run| && off + (start + i) * w + w <= |file|
    ensures run[i * w..i * w + w] == file[off + (start + i) * w..off + (start + i) * w + w]
  {
    MulMono(i + 1, stop - start, w);
    assert (stop - start) * w == stop * w - start * w;
    assert (start + i) * w == start * w + i * w && (i + 1) * w == i * w + w;
    SliceOfSlice(file, off + start * w, stop * w - start * w, i * w, w);
  }

  /** A read of the whole packed row, or of the weight and then the scale, is the table's row. */
  lemma ReadPaths(tb: Table, id: nat, lo: nat, hi: nat, scales: seq<Byte>)
    requires Extent(tb) && lo <= id < hi <= tb.rows
    requires scales == OwnedScales(tb, lo, hi)
    ensures var k := (id - lo) * SCALE;
            0 <= k && k + SCALE <= |scales| &&
            tb.file[tb.woff + id * WEIGHT..tb.woff + id * WEIGHT + WEIGHT] + scales[k..k + SCALE] == Row(tb, id)
  {
    RunOfRecords(tb.file, tb.soff, lo, hi, id - lo, SCALE, scales);
  }

  /** Row i of the two output buffers. */
  function OutRow<T>(ws: seq<T>, ss: seq<T>, i: nat): (row: seq<T>)
    requires i * WEIGHT + WEIGHT <= |ws| && i * SCALE + SCALE <= |ss|
    ensures |row| == ROW
  {
    ws[i * WEIGHT..i * WEIGHT + WEIGHT] + ss[i * SCALE..i * SCALE + SCALE]
  }

  /** serve(): `fetched(id)` is what fetch_row delivers.  An id outside the table aborts; a row owned by
      another rank is 264 zero bytes and every other row is the table's; nothing outside rows [begin, end)
      is written, so tickets may be served in parallel. */
  method Serve(tb: Table, lo: nat, hi: nat, ids: seq<int>, begin: nat, end: nat, fetched: nat -> seq<Byte>,
          weights: array<Byte>, scales: array<Byte>)
    returns (ok: bool)
    requires Extent(tb) && lo <= hi <= tb.rows && begin <= end <= |ids|
    requires weights.Length == |ids| * WEIGHT && scales.Length == |ids| * SCALE && weights != scales
    requires forall id: nat | lo <= id < hi :: fetched(id) == Row(tb, id)
    modifies weights, scales
    ensures ok <==> forall i | begin <= i < end :: 0 <= ids[i] < tb.rows
    ensures ok ==> forall i: nat | begin <= i < end && lo <= ids[i] < hi ::
              OutRow(weights[..], scales[..], i) == Row(tb, ids[i])
    ensures ok ==> forall i: nat, k: nat | begin <= i < end && !(lo <= ids[i] < hi) && k < ROW ::
              OutRow(weights[..], scales[..], i)[k] == 0
    ensures forall j | 0 <= j < weights.Length && !(begin * WEIGHT <= j < end * WEIGHT) :: weights[j] == old(weights[j])
    ensures forall j | 0 <= j < scales.Length && !(begin * SCALE <= j < end * SCALE) :: scales[j] == old(scales[j])
  {
    for i := begin to end
      invariant forall k | begin <= k < i :: 0 <= ids[k] < tb.rows
      invariant forall k: nat | begin <= k < i :: Serves(tb, lo, hi, ids[k], OutRow(weights[..], scales[..], k))
      invariant forall j | 0 <= j < weights.Length && !(begin * WEIGHT <= j < i * WEIGHT) ::
                  weights[j] == old(weights[j])
      invariant forall j | 0 <= j < scales.Length && !(begin * SCALE <= j < i * SCALE) :: scales[j] == old(scales[j])
    {
      ghost var ws, ss := weights[..], scales[..];
      var good := ServeOne(tb, lo, hi, ids[i], i, fetched, weights, scales);
      if !good { return false; }
      forall k: nat | begin <= k < i ensures Serves(tb, lo, hi, ids[k], OutRow(weights[..], scales[..], k)) {
        assert weights[..][..i * WEIGHT] == ws[..i * WEIGHT] && scales[..][..i * SCALE] == ss[..i * SCALE];
        OutRowFrame(ws, ss, weights[..], scales[..], k, i);
      }
    }
    return true;
  }

  /** row is what a rank that owns [lo, hi) gives for id: the table's row, or zeros. */
  predicate Serves(tb: Table, lo: nat, hi: nat, id: int, row: seq<Byte>)
    requires Extent(tb) && hi <= tb.rows && 0 <= id < tb.rows
  {
    |row| == ROW && if lo <= id < hi then row == Row(tb, id) else forall k | 0 <= k < ROW :: row[k] == 0
  }

  method ServeOne(tb: Table, lo: nat, hi: nat, id: int, i: nat, fetched: nat -> seq<Byte>, weights: array<Byte>,
          scales: array<Byte>)
    returns (ok: bool)
    requires Extent(tb) && lo <= hi <= tb.rows && weights != scales
    requires i * WEIGHT + WEIGHT <= weights.Length && i * SCALE + SCALE <= scales.Length
    requires forall id: nat | lo <= id < hi :: fetched(id) == Row(tb, id)
    modifies weights, scales
    ensures ok <==> 0 <= id < tb.rows
    ensures ok ==> Serves(tb, lo, hi, id, OutRow(weights[..], scales[..], i))
    ensures forall j | 0 <= j < weights.Length && !(ok && i * WEIGHT <= j < i * WEIGHT + WEIGHT) ::
              weights[j] == old(weights[j])
    ensures forall j | 0 <= j < scales.Length && !(ok && i * SCALE <= j < i * SCALE + SCALE) ::
              scales[j] == old(scales[j])
  {
    if id < 0 || id >= tb.rows { return false; }
    var row := if id < lo || id >= hi then seq(ROW, _ => 0) else fetched(id);
    Write(weights, i * WEIGHT, row[..WEIGHT]);
    Write(scales, i * SCALE, row[WEIGHT..]);
    assert OutRow(weights[..], scales[..], i) == row[..WEIGHT] + row[WEIGHT..] == row;
    return true;
  }

  lemma OutRowFrame(ws: seq<Byte>, ss: seq<Byte>, ws': seq<Byte>, ss': seq<Byte>, k: nat, i: nat)
    requires k < i && i * WEIGHT <= |ws| == |ws'| && i * SCALE <= |ss| == |ss'|
    requires ws[..i * WEIGHT] == ws'[..i * WEIGHT] && ss[..i * SCALE] == ss'[..i * SCALE]
    ensures OutRow(ws, ss, k) == OutRow(ws', ss', k)
  {
    assert ws[k * WEIGHT..k * WEIGHT + WEIGHT] == ws[..i * WEIGHT][k * WEIGHT..k * WEIGHT + WEIGHT];
    assert ss[k * SCALE..k * SCALE + SCALE] == ss[..i * SCALE][k * SCALE..k * SCALE + SCALE];
  }

  method Write(a: array<Byte>, at: nat, v: seq<Byte>)
    requires at + |v| <= a.Length
    modifies a
    ensures a[at..at + |v|] == v
    ensures forall j | 0 <= j < a.Length && !(at <= j < at + |v|) :: a[j] == old(a[j])
  {
    forall j | 0 <= j < |v| { a[at + j] := v[j]; }
  }
}
