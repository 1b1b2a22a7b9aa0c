/** Sliced reads of the fast loader (adapter/fast_load.py): a rank reads only its slice of an expert
    tensor, and a stand-in serves narrows of the full tensor from that slice. */
module SliceRead {
  import opened Seqs
  import opened IntMath
  import opened RowStore

  /* ------------------------------------------------------------ slices of row-major data */

  function Prod(shape: seq<nat>): nat {
    if shape == [] then 1 else Prod(shape[..|shape| - 1]) * shape[|shape| - 1]
  }

  /** Columns [si, si + li) of the first n rows of length `row`. */
  function Kept<T>(d: seq<T>, row: nat, si: nat, li: nat, n: nat): (s: seq<T>)
    requires si + li <= row && Mul(n, row) <= |d|
    ensures |s| == Mul(n, li)
  {
    if n == 0 then assert Mul(0, li) == 0; []
    else
      MulStep(n - 1, n, row);
      MulStep(n - 1, n, li);
      Kept(d, row, si, li, n - 1) + d[Mul(n - 1, row) + si..Mul(n - 1, row) + si + li]
  }

  lemma KeptStep<T>(d: seq<T>, row: nat, si: nat, li: nat, n: nat, a: nat)
    requires si + li <= row && Mul(n + 1, row) <= |d| && a == Mul(n, row) + si
    ensures Mul(n, row) + row == Mul(n + 1, row)
    ensures Kept(d, row, si, li, n + 1) == Kept(d, row, si, li, n) + d[a..a + li]
  {
    MulStep(n, n + 1, row);
  }

  /** Position x of row i of the slice is position si + x of row i. */
  lemma {:induction false} KeptAt<T>(d: seq<T>, row: nat, si: nat, li: nat, n: nat, i: nat, x: nat)
    requires si + li <= row && Mul(n, row) <= |d| && i < n && x < li
    ensures Mul(i, li) + x < Mul(n, li) && Mul(i, row) + si + x < Mul(n, row)
    ensures Kept(d, row, si, li, n)[Mul(i, li) + x] == d[Mul(i, row) + si + x]
  {
    hide Mul;
    MulStep(i, n, li);
    MulStep(i, n, row);
    MulStep(n - 1, n, li);
    MulStep(n - 1, n, row);
    if i < n - 1 {
      KeptAt(d, row, si, li, n - 1, i, x);
    } else {
      var k := Kept(d, row, si, li, n - 1);
      var last := d[Mul(i, row) + si..Mul(i, row) + si + li];
      assert Kept(d, row, si, li, n) == k + last;
      assert last[x] == d[Mul(i, row) + si + x];
    }
  }

  lemma {:induction false} KeptPrefix<T>(d: seq<T>, e: seq<T>, row: nat, si: nat, li: nat, n: nat)
    requires si + li <= row && Mul(n, row) <= |d| <= |e| && d == e[..|d|]
    ensures Kept(d, row, si, li, n) == Kept(e, row, si, li, n)
  {
    hide Mul;
    if n > 0 {
      MulStep(n - 1, n, row);
      KeptPrefix(d, e, row, si, li, n - 1);
      InPrefix(d, e, Mul(n - 1, row) + si, li);
    }
  }

  /** A slice of a slice is one slice. */
  lemma {:induction false} KeptTwice<T>(d: seq<T>, row: nat, si: nat, li: nat, s2: nat, l2: nat, n: nat)
    requires si + li <= row && Mul(n, row) <= |d| && s2 + l2 <= li
    ensures Kept(Kept(d, row, si, li, n), li, s2, l2, n) == Kept(d, row, si + s2, l2, n)
  {
    hide Mul;
    if n > 0 {
      MulStep(n - 1, n, row);
      MulStep(n - 1, n, li);
      var k, a := Kept(d, row, si, li, n), Mul(n - 1, row) + si;
      var k0 := Kept(d, row, si, li, n - 1);
      KeptTwice(d, row, si, li, s2, l2, n - 1);
      KeptPrefix(k0, k, li, s2, l2, n - 1);
      assert k == k0 + d[a..a + li];
      InSuffix(k0, d[a..a + li], s2, l2);
      SliceOfSlice(d, a, li, s2, l2);
    }
  }

  /* ------------------------------------------------------------------------ reading a file */

  const CHUNK: nat := 0x80_0000

  /** One read of r bytes behind the first `got`, for the bytes [off, off + n) of the file. */
  method Fill(file: seq<Byte>, off: nat, buf: array<Byte>, at: nat, got: nat, r: nat)
    requires at + got + r <= buf.Length && off + got + r <= |file|
    requires got > 0 ==> buf[at..at + got] == file[off..off + got]
    modifies buf
    ensures buf[at..at + got + r] == file[off..off + got + r]
    ensures forall i | 0 <= i < buf.Length && !(at + got <= i < at + got + r) :: buf[i] == old(buf[i])
  {
    forall i | at + got <= i < at + got + r { buf[i] := file[off + (i - at)]; }
    ghost var b, f := buf[at..at + got + r], file[off..off + got + r];
    forall k | 0 <= k < got + r ensures b[k] == f[k] {
      if k < got { assert old(buf[at..at + got])[k] == file[off..off + got][k]; }
    }
  }

  /** _read_into: fills buf[at..at + n] from the file, whatever short reads the system returns; a read
      of nothing is an error. */
  method ReadInto(file: seq<Byte>, off: nat, buf: array<Byte>, at: nat, n: nat, os: (nat, nat) -> int)
    returns (ok: bool)
    requires at + n <= buf.Length && forall o: nat, w: nat :: MayReturn(file, o, w, os(o, w))
    modifies buf
    ensures ok && n > 0 ==> off + n <= |file| && buf[at..at + n] == file[off..off + n]
    ensures forall i | 0 <= i < buf.Length && !(at <= i < at + n) :: buf[i] == old(buf[i])
    ensures (forall o: nat, w: nat | w > 0 :: os(o, w) > 0) ==> ok
  {
    var got := 0;
    while got < n
      invariant got <= n && (got > 0 ==> off + got <= |file| && buf[at..at + got] == file[off..off + got])
      invariant forall i | 0 <= i < buf.Length && !(at <= i < at + n) :: buf[i] == old(buf[i])
    {
      var r := os(off + got, n - got);
      if r <= 0 { return false; }
      assert MayReturn(file, off + got, n - got, r);
      Fill(file, off, buf, at, got, r);
      got := got + r;
    }
    ok := true;
  }

  /** A leading-dimension slice: one run of bytes, straight into the buffer, a chunk at a time. */
  method ReadRun(file: seq<Byte>, off: nat, dst: array<Byte>, os: (nat, nat) -> int) returns (ok: bool)
    requires dst.Length > 0 && forall o: nat, w: nat :: MayReturn(file, o, w, os(o, w))
    modifies dst
    ensures ok ==> off + dst.Length <= |file| && dst[..] == file[off..off + dst.Length]
    ensures (forall o: nat, w: nat | w > 0 :: os(o, w) > 0) ==> ok
  {
    var c := 0;
    while c < dst.Length
      invariant c <= dst.Length && (c > 0 ==> off + c <= |file| && dst[..c] == file[off..off + c])
    {
      var n := Min(CHUNK, dst.Length - c);
      ghost var was := dst[..c];
      ok := ReadInto(file, off + c, dst, c, n, os);
      if !ok { return; }
      forall i | 0 <= i < c ensures dst[i] == was[i] { assert !(c <= i < c + n); }
      SliceJoin(dst[..], 0, c, n);
      SliceJoin(file, off, c, n);
      c := c + n;
    }
    ok := true;
  }

  /** The bounce buffer of a reader thread: kept and grown, never cleared. */
  class Reader {
    var buf: array<Byte>

    constructor ()
      ensures fresh(buf)
    {
      buf := new Byte[0];
    }

    method Bounce(n: nat)
      modifies this
      ensures buf.Length >= n && (buf == old(buf) || fresh(buf))
    {
      if buf.Length < n { buf := new Byte[Max(n, CHUNK)](_ => 0); }
    }

    /** An inner-dimension slice: whole rows through the bounce buffer, keeping columns [si, si + li). */
    method ReadRows(file: seq<Byte>, off: nat, row: nat, si: nat, li: nat, outer: nat, dst: array<Byte>,
            os: (nat, nat) -> int)
      returns (ok: bool)
      requires si + li <= row && row > 0 && dst.Length == Mul(outer, li) && off + Mul(outer, row) <= |file|
      requires dst != buf
      requires forall o: nat, w: nat :: MayReturn(file, o, w, os(o, w))
      modifies this, buf, dst
      ensures buf == old(buf) || fresh(buf)
      ensures ok ==> dst[..] == Kept(file[off..off + Mul(outer, row)], row, si, li, outer)
      ensures (forall o: nat, w: nat | w > 0 :: os(o, w) > 0) ==> ok
    {
      hide Mul;
      var rows: nat := Max(1, Quotient(CHUNK, row));
      ghost var d := file[off..off + Mul(outer, row)];
      Bounce(Mul(Min(outer, rows), row));
      MulStep(0, outer + 1, row);
      MulStep(0, outer + 1, li);
      var r0 := 0;
      while r0 < outer
        invariant r0 <= outer && dst != buf && buf.Length >= Mul(Min(outer, rows), row)
        invariant (buf == old(buf) || fresh(buf))
        invariant Mul(r0, row) <= |d| && Mul(r0, li) <= dst.Length && dst[..Mul(r0, li)] == Kept(d, row, si, li, r0)
      {
        var k: nat := Min(rows, outer - r0);
        MulAdd(r0, k, outer, row);
        MulAdd(r0, k, outer, li);
        MulMono(k, Min(outer, rows), row);
        assert Mul(k, row) <= buf.Length by { MulIs(k, Min(outer, rows), row); }
        ok := ReadInto(file, off + Mul(r0, row), buf, 0, Mul(k, row), os);
        if !ok { return; }
        SourceRows(file, off, outer, row, r0, k);
        CopyRows(buf, d, row, si, li, r0, k, dst);
        r0 := r0 + k;
      }
      assert dst[..] == dst[..dst.Length];
      ok := true;
    }
  }

  lemma MulIs(a: nat, b: nat, w: nat)
    requires a <= b
    ensures Mul(a, w) <= Mul(b, w)
  {
    MulMono(a, b, w);
  }

  lemma MulAdd(a: nat, k: nat, n: nat, w: nat)
    requires a + k <= n
    ensures Mul(a, w) + Mul(k, w) == Mul(a + k, w) <= Mul(n, w)
    ensures k > 0 && w > 0 ==> Mul(k, w) > 0
  {
    MulMono(a + k, n, w);
    MulSign(k, w);
    assert a * w + k * w == (a + k) * w;
  }

  /** Rows r0..r0 + k of the file region, as one run of the file. */
  lemma SourceRows(file: seq<Byte>, off: nat, outer: nat, row: nat, r0: nat, k: nat)
    requires off + Mul(outer, row) <= |file| && r0 + k <= outer
    ensures Mul(r0, row) + Mul(k, row) <= Mul(outer, row)
    ensures file[off + Mul(r0, row)..off + Mul(r0, row) + Mul(k, row)]
            == file[off..off + Mul(outer, row)][Mul(r0, row)..Mul(r0, row) + Mul(k, row)]
  {
    hide Mul;
    MulAdd(r0, k, outer, row);
    SliceOfSlice(file, off, Mul(outer, row), Mul(r0, row), Mul(k, row));
  }

  method CopyRun(buf: array<Byte>, a: nat, n: nat, dst: array<Byte>, b: nat)
    requires a + n <= buf.Length && b + n <= dst.Length && dst != buf
    modifies dst
    ensures dst[..b + n] == old(dst[..b]) + buf[a..a + n]
  {
    forall x | 0 <= x < n { dst[b + x] := buf[a + x]; }
  }

  lemma RunSource(buf: seq<Byte>, m: nat, d: seq<Byte>, at: nat, a: nat, n: nat)
    requires a + n <= m <= |buf| && at + m <= |d| && buf[..m] == d[at..at + m]
    ensures buf[a..a + n] == d[at + a..at + a + n]
  {
    InPrefix(buf[..m], buf, a, n);
    SliceOfSlice(d, at, m, a, n);
  }

  /** The kept columns of row i of the buffer are the next of the slice. */
  lemma NextRow(buf: seq<Byte>, d: seq<Byte>, row: nat, si: nat, li: nat, r0: nat, k: nat, i: nat)
    requires si + li <= row && i < k && Mul(k, row) <= |buf|
    requires Mul(r0, row) + Mul(k, row) == Mul(r0 + k, row) <= |d|
    requires buf[..Mul(k, row)] == d[Mul(r0, row)..Mul(r0, row) + Mul(k, row)]
    ensures Mul(r0 + i, li) + li == Mul(r0 + i + 1, li) <= Mul(r0 + k, li) && Mul(r0 + i, row) <= |d|
    ensures Mul(i, row) + si + li <= |buf| && Mul(r0 + i + 1, row) <= |d|
    ensures Kept(d, row, si, li, r0 + i) + buf[Mul(i, row) + si..Mul(i, row) + si + li]
            == Kept(d, row, si, li, r0 + i + 1)
  {
    hide Mul, Kept;
    MulStep(i, k, row);
    MulStep(r0 + i, r0 + k, row);
    MulStep(r0 + i, r0 + k, li);
    MulAdd(r0, i, r0 + k, row);
    RunSource(buf, Mul(k, row), d, Mul(r0, row), Mul(i, row) + si, li);
    KeptStep(d, row, si, li, r0 + i, Mul(r0, row) + Mul(i, row) + si);
  }

  /** The strided copy of k rows out of the bounce buffer. */
  method CopyRows(buf: array<Byte>, ghost d: seq<Byte>, row: nat, si: nat, li: nat, r0: nat, k: nat, dst: array<Byte>)
    requires si + li <= row && Mul(k, row) <= buf.Length && dst != buf
    requires Mul(r0, row) + Mul(k, row) == Mul(r0 + k, row) <= |d|
    requires buf[..Mul(k, row)] == d[Mul(r0, row)..Mul(r0, row) + Mul(k, row)]
    requires Mul(r0, li) <= Mul(r0 + k, li) <= dst.Length && dst[..Mul(r0, li)] == Kept(d, row, si, li, r0)
    modifies dst
    ensures dst[..Mul(r0 + k, li)] == Kept(d, row, si, li, r0 + k)
  {
    hide Mul, Kept;
    var i := 0;
    while i < k
      invariant i <= k && Mul(r0 + i, li) <= dst.Length && Mul(r0 + i, row) <= |d|
      invariant dst[..Mul(r0 + i, li)] == Kept(d, row, si, li, r0 + i)
    {
      NextRow(buf[..], d, row, si, li, r0, k, i);
      CopyRun(buf, Mul(i, row) + si, li, dst, Mul(r0 + i, li));
      i := i + 1;
    }
  }
}
