/** Expert parallelism in adapter/moe_b12x_next.py: global routing ids are rewritten to a rank's own
    experts, a batch runs in chunks on prepared capacities, and the ranks' outputs add up to the
    original routing. */
module EpRemap {
  import opened IntMath

  const BIG: int := 0x7fff_ffff
  const TWO32: int := 0x1_0000_0000

  /** Int32 arithmetic of the kernel. */
  function Wrap32(x: int): (y: int)
    ensures -BIG - 1 <= y <= BIG
  {
    var m := x % TWO32;
    if m <= BIG then m else m - TWO32
  }

  predicate Int32(x: int) { -BIG - 1 <= x <= BIG }

  /** The experts [offset, offset + count) of one rank. */
  datatype Group = Group(offset: nat, count: nat)

  predicate Fits(g: Group) { g.count >= 1 && g.offset + g.count <= BIG }

  predicate Local(g: Group, id: int) { 0 <= id - g.offset < g.count }

  /** The kernel's wrapped test is the exact one, for every int32 id. */
  lemma WrapIsExact(g: Group, id: int)
    requires Fits(g) && Int32(id)
    ensures Wrap32(id) == id
    ensures 0 <= Wrap32(Wrap32(id) - g.offset) < g.count <==> Local(g, id)
    ensures Local(g, id) ==> Wrap32(Wrap32(id) - g.offset) == id - g.offset
  {
    if id - g.offset < -BIG - 1 { assert (id - g.offset) % TWO32 == id - g.offset + TWO32; }
  }

  /** A wider id is narrowed first, so for any integer the test is exact if and only if the id is not a
      foreign one whose low 32 bits name a local expert. */
  lemma KernelExactIff(g: Group, id: int)
    requires Fits(g)
    ensures KernelLid(g, id) == Lid(g, Wrap32(id))
    ensures KernelLid(g, id) == Lid(g, id) <==> (Local(g, Wrap32(id)) ==> Local(g, id))
  {
    WrapIsExact(g, Wrap32(id));
    if Local(g, id) { WrapIsExact(g, id); }
  }

  /** A failing input: the low 32 bits of a foreign id name local expert 3. */
  lemma WideIdMisread()
    ensures
      var g, id := Group(0, 4), 0x1_0000_0003;
      Fits(g) && !Local(g, id) && Lid(g, id) == BIG && KernelLid(g, id) == 3
  {
    assert 0x1_0000_0003 % TWO32 == 3;
  }

  /* ---------------------------------------------------------------- what the remap computes */

  function Lid(g: Group, id: int): int { if Local(g, id) then id - g.offset else BIG }

  /** Smallest local id of a row, or BIG. */
  function RowMin(g: Group, row: seq<int>): int {
    if row == [] then BIG else Min(RowMin(g, row[..|row| - 1]), Lid(g, row[|row| - 1]))
  }

  function BatchMin(g: Group, rows: seq<seq<int>>): int {
    if rows == [] then BIG else Min(BatchMin(g, rows[..|rows| - 1]), RowMin(g, rows[|rows| - 1]))
  }

  /** What a slot of row r that is not local is filled with. */
  function Filler(g: Group, rows: seq<seq<int>>, r: nat): int
    requires r < |rows|
  {
    if RowMin(g, rows[r]) < g.count then RowMin(g, rows[r])
    else if BatchMin(g, rows) < g.count then BatchMin(g, rows) else 0
  }

  function NewId(g: Group, rows: seq<seq<int>>, r: nat, k: nat): int
    requires r < |rows| && k < |rows[r]|
  {
    if Local(g, rows[r][k]) then rows[r][k] - g.offset else Filler(g, rows, r)
  }

  function NewWeight(g: Group, id: int, w: real): real { if Local(g, id) then w else 0.0 }

  predicate Routes(rows: seq<seq<int>>, w: seq<seq<real>>, topk: nat) {
    |rows| == |w| && forall r | 0 <= r < |rows| :: |rows[r]| == |w[r]| == topk
  }

  /** The ids as the kernel reads them: narrowed to int32. */
  function Narrow(row: seq<int>): (n: seq<int>)
    ensures |n| == |row| && forall k | 0 <= k < |row| :: n[k] == Wrap32(row[k])
  {
    seq(|row|, k requires 0 <= k < |row| => Wrap32(row[k]))
  }

  function NarrowAll(rows: seq<seq<int>>): (n: seq<seq<int>>)
    ensures |n| == |rows| && forall r | 0 <= r < |rows| :: n[r] == Narrow(rows[r])
  {
    seq(|rows|, r requires 0 <= r < |rows| => Narrow(rows[r]))
  }

  predicate Int32Ids(rows: seq<seq<int>>) {
    forall r, k | 0 <= r < |rows| && 0 <= k < |rows[r]| :: Int32(rows[r][k])
  }

  /** Narrowing changes nothing exactly when every id is an int32. */
  lemma NarrowSame(rows: seq<seq<int>>)
    ensures NarrowAll(rows) == rows <==> Int32Ids(rows)
  {
    if Int32Ids(rows) {
      forall r | 0 <= r < |rows| ensures NarrowAll(rows)[r] == rows[r] {
        assert forall k | 0 <= k < |rows[r]| :: Narrow(rows[r])[k] == rows[r][k];
      }
    } else {
      var r, k :| 0 <= r < |rows| && 0 <= k < |rows[r]| && !Int32(rows[r][k]);
      assert NarrowAll(rows)[r][k] == Wrap32(rows[r][k]);
    }
  }

  const BR: nat := 32

  /** Minimum over the rows [lo, hi) as one block of the kernel takes it, with wrapped ids. */
  function BlockMin(g: Group, rows: seq<seq<int>>, lo: nat, hi: nat): int
    requires lo <= hi <= |rows|
  {
    if lo == hi then BIG else Min(BlockMin(g, rows, lo, hi - 1), KernelRowMin(g, rows[hi - 1]))
  }

  function KernelLid(g: Group, id: int): int {
    var lid := Wrap32(Wrap32(id) - g.offset);
    if 0 <= lid < g.count then lid else BIG
  }

  function KernelRowMin(g: Group, row: seq<int>): int {
    if row == [] then BIG else Min(KernelRowMin(g, row[..|row| - 1]), KernelLid(g, row[|row| - 1]))
  }

  lemma {:induction false} KernelRowMinIs(g: Group, row: seq<int>)
    requires Fits(g)
    ensures KernelRowMin(g, row) == RowMin(g, Narrow(row))
  {
    hide Wrap32;
    if row != [] {
      var n := |row| - 1;
      KernelRowMinIs(g, row[..n]);
      KernelExactIff(g, row[n]);
      assert Narrow(row)[..n] == Narrow(row[..n]);
    }
  }

  lemma {:induction false} BlockMinIs(g: Group, rows: seq<seq<int>>, lo: nat, hi: nat)
    requires Fits(g) && lo <= hi <= |rows|
    ensures BatchMin(g, NarrowAll(rows)[..hi]) == Min(BatchMin(g, NarrowAll(rows)[..lo]), BlockMin(g, rows, lo, hi))
  {
    hide Wrap32, Int32, RowMin, KernelRowMin, Narrow;
    var n := NarrowAll(rows);
    if lo < hi {
      BlockMinIs(g, rows, lo, hi - 1);
      assert n[..hi][..hi - 1] == n[..hi - 1];
      KernelRowMinIs(g, rows[hi - 1]);
    } else {
      MinIsSmall(g, n[..lo]);
    }
  }

  lemma {:induction false} MinIsSmall(g: Group, rows: seq<seq<int>>)
    ensures BatchMin(g, rows) <= BIG
  {
    if rows != [] { MinIsSmall(g, rows[..|rows| - 1]); }
  }

  /** First pass: the smallest local id of the batch, block by block. */
  method BestLocal(g: Group, rows: seq<seq<int>>) returns (best: int)
    requires Fits(g)
    ensures best == BatchMin(g, NarrowAll(rows))
  {
    ghost var n := NarrowAll(rows);
    var r0 := 0;
    best := BIG;
    while r0 < |rows|
      invariant r0 <= |rows| && best == BatchMin(g, n[..r0])
    {
      var r1 := Min(r0 + BR, |rows|);
      BlockMinIs(g, rows, r0, r1);
      best := Min(best, BlockMin(g, rows, r0, r1));
      r0 := r1;
    }
    assert n[..|rows|] == n;
  }

  /** The two passes of the kernel over blocks of 32 rows, into the first rows of the output buffers. */
  method RemapKernel(g: Group, rows: seq<seq<int>>, w: seq<seq<real>>, topk: nat, outIds: array2<int>,
          outW: array2<real>)
    requires Fits(g) && Routes(rows, w, topk)
    requires outIds.Length0 >= |rows| && outW.Length0 >= |rows| && outIds.Length1 == outW.Length1 == topk
    modifies outIds, outW
    ensures forall r: nat, k: nat | r < |rows| && k < topk ::
              && outIds[r, k] == NewId(g, NarrowAll(rows), r, k)
              && outW[r, k] == NewWeight(g, NarrowAll(rows)[r][k], w[r][k])
  {
    ghost var n := NarrowAll(rows);
    var M := |rows|;
    var best := BestLocal(g, rows);
    var fb := if best < g.count then best else 0;
    forall r: nat, k: nat | r < M && k < topk
      ensures KernelId(g, rows[r], k, fb) == NewId(g, n, r, k)
      ensures (KernelLid(g, rows[r][k]) < g.count <==> Local(g, n[r][k]))
    {
      hide Wrap32;
      KernelRowMinIs(g, rows[r]);
      KernelExactIff(g, rows[r][k]);
    }
    hide KernelId, KernelLid, Local, NewId, Fits;
    var r0 := 0;
    while r0 < M
      invariant r0 <= M
      invariant forall r: nat, k: nat | r < r0 && k < topk ::
                  outIds[r, k] == NewId(g, n, r, k) && outW[r, k] == NewWeight(g, n[r][k], w[r][k])
    {
      var r1 := Min(r0 + BR, M);
      forall r, k | r0 <= r < r1 && 0 <= k < topk {
        outIds[r, k] := KernelId(g, rows[r], k, fb);
      }
      forall r, k | r0 <= r < r1 && 0 <= k < topk {
        outW[r, k] := if KernelLid(g, rows[r][k]) < g.count then w[r][k] else 0.0;
      }
      r0 := r1;
    }
  }

  function KernelId(g: Group, row: seq<int>, k: nat, fb: int): int
    requires k < |row|
  {
    var m := KernelRowMin(g, row);
    if KernelLid(g, row[k]) < g.count then KernelLid(g, row[k]) else if m < g.count then m else fb
  }

  /* --------------------------------------------------------------------- experts that are read */

  ghost predicate Hits(g: Group, rows: seq<seq<int>>, e: int) {
    exists r: nat, k: nat :: r < |rows| && k < |rows[r]| && Local(g, rows[r][k]) && rows[r][k] - g.offset == e
  }

  lemma {:induction false} RowMinIsHit(g: Group, row: seq<int>)
    requires RowMin(g, row) < g.count <= BIG
    ensures exists k: nat :: k < |row| && Local(g, row[k]) && row[k] - g.offset == RowMin(g, row)
  {
    var n := |row| - 1;
    if RowMin(g, row) == Lid(g, row[n]) {
      assert Local(g, row[n]) && row[n] - g.offset == RowMin(g, row);
    } else {
      RowMinIsHit(g, row[..n]);
      var k: nat :| k < n && Local(g, row[..n][k]) && row[..n][k] - g.offset == RowMin(g, row);
      assert row[k] == row[..n][k];
    }
  }

  lemma {:induction false} BatchMinIsHit(g: Group, rows: seq<seq<int>>)
    requires BatchMin(g, rows) < g.count <= BIG
    ensures Hits(g, rows, BatchMin(g, rows))
  {
    var n := |rows| - 1;
    if BatchMin(g, rows) == RowMin(g, rows[n]) {
      RowMinIsHit(g, rows[n]);
    } else {
      BatchMinIsHit(g, rows[..n]);
      var m := rows[..n];
      var r: nat, k: nat :| r < n && k < |m[r]| && Local(g, m[r][k]) && m[r][k] - g.offset == BatchMin(g, rows);
      assert rows[r] == rows[..n][r];
    }
  }

  lemma {:induction false} RowMinBelow(g: Group, row: seq<int>, k: nat)
    requires k < |row| && Local(g, row[k])
    ensures RowMin(g, row) <= row[k] - g.offset
  {
    if k < |row| - 1 { RowMinBelow(g, row[..|row| - 1], k); }
  }

  lemma {:induction false} BatchMinBelow(g: Group, rows: seq<seq<int>>, r: nat, k: nat)
    requires r < |rows| && k < |rows[r]| && Local(g, rows[r][k])
    ensures BatchMin(g, rows) <= rows[r][k] - g.offset
  {
    if r < |rows| - 1 { BatchMinBelow(g, rows[..|rows| - 1], r, k); } else { RowMinBelow(g, rows[r], k); }
  }

  /** A slot of another rank's expert takes the smallest local expert of its row, or else of the batch, or else 0. */
  lemma FillerIs(g: Group, rows: seq<seq<int>>, r: nat)
    requires Fits(g) && r < |rows|
    ensures
      var f, row := Filler(g, rows, r), rows[r];
      && (forall k: nat | k < |row| && Local(g, row[k]) ::
            f <= row[k] - g.offset && exists j: nat :: j < |row| && Local(g, row[j]) && row[j] - g.offset == f)
      && ((forall k: nat | k < |row| :: !Local(g, row[k])) ==>
            && (forall d | Hits(g, rows, d) :: f <= d && Hits(g, rows, f))
            && ((forall d :: !Hits(g, rows, d)) ==> f == 0))
  {
    var f, row := Filler(g, rows, r), rows[r];
    forall k: nat | k < |row| && Local(g, row[k])
      ensures f <= row[k] - g.offset && exists j: nat :: j < |row| && Local(g, row[j]) && row[j] - g.offset == f
    {
      RowMinBelow(g, row, k);
      RowMinIsHit(g, row);
    }
    if forall k: nat | k < |row| :: !Local(g, row[k]) {
      if RowMin(g, row) < g.count { RowMinIsHit(g, row); }
      forall d | Hits(g, rows, d) ensures f <= d && Hits(g, rows, f) {
        var a: nat, b: nat :| a < |rows| && b < |rows[a]| && Local(g, rows[a][b]) && rows[a][b] - g.offset == d;
        BatchMinBelow(g, rows, a, b);
        BatchMinIsHit(g, rows);
      }
      if BatchMin(g, rows) < g.count { BatchMinIsHit(g, rows); }
    }
  }

  /** The remapped batch reads exactly the local experts it was routed to; expert 0 if there are none. */
  lemma FillersAreRead(g: Group, rows: seq<seq<int>>, topk: nat, e: int)
    requires Fits(g) && topk >= 1 && rows != [] && forall r | 0 <= r < |rows| :: |rows[r]| == topk
    ensures (exists r: nat, k: nat :: r < |rows| && k < topk && NewId(g, rows, r, k) == e)
            <==> (Hits(g, rows, e) || (e == 0 && forall d :: !Hits(g, rows, d)))
  {
    if r: nat, k: nat :| r < |rows| && k < topk && NewId(g, rows, r, k) == e { NewIdIsHit(g, rows, topk, r, k); }
    if Hits(g, rows, e) {
      var r: nat, k: nat :| r < |rows| && k < |rows[r]| && Local(g, rows[r][k]) && rows[r][k] - g.offset == e;
      assert NewId(g, rows, r, k) == e;
    } else if e == 0 && forall d :: !Hits(g, rows, d) {
      if RowMin(g, rows[0]) < g.count { RowMinIsHit(g, rows[0]); assert Hits(g, rows, RowMin(g, rows[0])); }
      if BatchMin(g, rows) < g.count { BatchMinIsHit(g, rows); }
      assert !Local(g, rows[0][0]) by { if Local(g, rows[0][0]) { assert Hits(g, rows, rows[0][0] - g.offset); } }
      assert NewId(g, rows, 0, 0) == 0;
    }
  }

  lemma NewIdIsHit(g: Group, rows: seq<seq<int>>, topk: nat, r: nat, k: nat)
    requires Fits(g) && r < |rows| && k < topk && forall r | 0 <= r < |rows| :: |rows[r]| == topk
    ensures Hits(g, rows, NewId(g, rows, r, k)) || (NewId(g, rows, r, k) == 0 && forall d :: !Hits(g, rows, d))
  {
    if Local(g, rows[r][k]) { return; }
    if RowMin(g, rows[r]) < g.count { RowMinIsHit(g, rows[r]); return; }
    if BatchMin(g, rows) < g.count { BatchMinIsHit(g, rows); return; }
    forall d ensures !Hits(g, rows, d) {
      if Hits(g, rows, d) {
        var a: nat, b: nat :| a < |rows| && b < |rows[a]| && Local(g, rows[a][b]) && rows[a][b] - g.offset == d;
        BatchMinBelow(g, rows, a, b);
      }
    }
  }
}
