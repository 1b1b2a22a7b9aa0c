/** A rank's slice of a checkpoint tensor of any rank: its geometry, its read, and the stand-in that
    serves the loader's narrows from it (adapter/fast_load.py). */
module TensorSlice {
  import opened Seqs
  import opened Options
  import opened IntMath
  import opened RowStore
  import opened SliceRead

  /* -------------------------------------------------------------------------- geometry */

  /** A slice [start, start + length) of dimension `dim` of a row-major tensor of `item`-byte elements. */
  datatype Spec = Spec(dim: nat, start: nat, length: nat)

  predicate Fits(shape: seq<nat>, sp: Spec) { sp.dim < |shape| && sp.start + sp.length <= shape[sp.dim] }

  function Outer(shape: seq<nat>, dim: nat): nat
    requires dim < |shape|
  {
    Prod(shape[..dim])
  }

  function Inner(shape: seq<nat>, dim: nat, item: nat): nat
    requires dim < |shape|
  {
    Mul(Prod(shape[dim + 1..]), item)
  }

  /** The dimension an expert projection is sliced along: rows of w1 and w3, columns of w2. */
  function SliceDim(proj: string): Option<nat> {
    if proj == "w1" || proj == "w3" then Some(0) else if proj == "w2" then Some(1) else None
  }

  /** A rank's equal share of a dimension. */
  function RankSlice(shape: seq<nat>, dim: nat, rank: nat, size: nat): (sp: Spec)
    requires rank < size && dim < |shape| && shape[dim] % size == 0
    ensures Fits(shape, sp) && sp.dim == dim && sp.start == rank * sp.length && sp.length * size == shape[dim]
  {
    var length := Quotient(shape[dim], size);
    MulMono(rank + 1, size, length);
    assert shape[dim] == length * size;
    Spec(dim, rank * length, length)
  }

  /** slice_spec: `name` is the projection and kind that end an expert tensor's name, if it has them.  Only the
      weights and scales of w1, w2 and w3 of routed experts are sliced, and only along a dimension that
      divides; everything else is read whole. */
  function SliceSpec(expert: bool, name: Option<(string, string)>, shape: seq<nat>,
          tp: Option<(nat, nat)>): (r: Option<Spec>)
    requires tp.Some? ==> tp.value.0 < tp.value.1
    ensures r.Some? <==>
            && tp.Some? && expert && name.Some? && SliceDim(name.value.0).Some?
            && (name.value.1 == "weight" || name.value.1 == "scale")
            && SliceDim(name.value.0).value < |shape| && shape[SliceDim(name.value.0).value] % tp.value.1 == 0
    ensures r.Some? ==> r.value == RankSlice(shape, SliceDim(name.value.0).value, tp.value.0, tp.value.1)
  {
    if tp.None? || !expert || name.None? then None
    else
      var (proj, kind) := name.value;
      var (rank, size) := tp.value;
      if SliceDim(proj).None? || (kind != "weight" && kind != "scale") then None
      else
        var dim := SliceDim(proj).value;
        if |shape| <= dim || shape[dim] % size != 0 then None else Some(RankSlice(shape, dim, rank, size))
  }

  /** The ranks' slices tile the dimension: each index is in exactly one. */
  lemma SlicesTile(shape: seq<nat>, dim: nat, size: nat, j: nat) returns (owner: nat)
    requires size >= 1 && dim < |shape| && shape[dim] % size == 0 && j < shape[dim]
    ensures owner < size
    ensures forall r: nat | r < size ::
              var sp := RankSlice(shape, dim, r, size); sp.start <= j < sp.start + sp.length <==> r == owner
  {
    var length := Quotient(shape[dim], size);
    assert shape[dim] == length * size;
    owner := Quotient(j, length);
    if owner >= size { MulMono(size, owner, length); }
    forall r: nat | r < size
      ensures var sp := RankSlice(shape, dim, r, size); sp.start <= j < sp.start + sp.length <==> r == owner
    {
      if r * length <= j < r * length + length { QuotientIs(j, length, r); }
    }
  }

  lemma {:induction false} ProdSplit(shape: seq<nat>, k: nat)
    requires k <= |shape|
    ensures Prod(shape) == Prod(shape[..k]) * Prod(shape[k..])
  {
    var n := |shape|;
    if k == n { assert shape[..n] == shape && shape[n..] == []; return; }
    ProdSplit(shape[..n - 1], k);
    assert shape[..n - 1][..k] == shape[..k] && shape[..n - 1][k..] == shape[k..][..n - 1 - k];
    Assoc(Prod(shape[..k]), Prod(shape[k..][..n - 1 - k]), shape[n - 1]);
  }

  lemma Assoc(a: nat, b: nat, c: nat)
    ensures (a * b) * c == a * (b * c)
  {}

  lemma Regroup(o: nat, w: nat, p: nat, item: nat)
    ensures Mul(o * (w * p), item) == Mul(o, Mul(w, Mul(p, item)))
  {
    Assoc(o, w * p, item);
    Assoc(w, p, item);
  }

  /** The product of a shape, split around one dimension. */
  lemma ProdAround(shape: seq<nat>, dim: nat)
    requires dim < |shape|
    ensures Prod(shape) == Prod(shape[..dim]) * (shape[dim] * Prod(shape[dim + 1..]))
  {
    hide Prod;
    ProdSplit(shape, dim);
    var rest := shape[dim..];
    ProdSplit(rest, 1);
    ProdOne(shape[dim]);
    assert rest[1..] == shape[dim + 1..] && rest[..1] == [shape[dim]];
  }

  lemma ProdOne(n: nat)
    ensures Prod([n]) == n
  {
    assert [n][..0] == [];
  }

  /** The whole tensor is `outer` rows of shape[dim] * inner bytes. */
  lemma GeometryCovers(shape: seq<nat>, dim: nat, item: nat)
    requires dim < |shape|
    ensures Mul(Prod(shape), item) == Mul(Outer(shape, dim), Mul(shape[dim], Inner(shape, dim, item)))
  {
    ProdAround(shape, dim);
    Regroup(Prod(shape[..dim]), shape[dim], Prod(shape[dim + 1..]), item);
    hide Prod, Mul;
  }

  lemma RowFits(shape: seq<nat>, sp: Spec, item: nat)
    requires Fits(shape, sp)
    ensures var inner := Inner(shape, sp.dim, item);
            Mul(sp.start, inner) + Mul(sp.length, inner) <= Mul(shape[sp.dim], inner)
  {
    MulAdd(sp.start, sp.length, shape[sp.dim], Inner(shape, sp.dim, item));
  }

  /** The slice's bytes (elements, for item = 1). */
  function SliceOf<T>(d: seq<T>, shape: seq<nat>, sp: Spec, item: nat): (s: seq<T>)
    requires Fits(shape, sp) && |d| == Mul(Prod(shape), item)
    ensures |s| == Mul(Outer(shape, sp.dim), Mul(sp.length, Inner(shape, sp.dim, item)))
  {
    GeometryCovers(shape, sp.dim, item);
    RowFits(shape, sp, item);
    var inner := Inner(shape, sp.dim, item);
    Kept(d, Mul(shape[sp.dim], inner), Mul(sp.start, inner), Mul(sp.length, inner), Outer(shape, sp.dim))
  }

  /* ----------------------------------------------------------------------------- the read */

  /** _read_slice: the destination ends up with exactly the rank's slice of the tensor at `at`. */
  method ReadSlice(rd: Reader, file: seq<Byte>, at: nat, shape: seq<nat>, sp: Spec, item: nat, dst: array<Byte>,
          os: (nat, nat) -> int)
    returns (ok: bool)
    requires Fits(shape, sp) && at + Mul(Prod(shape), item) <= |file|
    requires dst.Length == Mul(Outer(shape, sp.dim), Mul(sp.length, Inner(shape, sp.dim, item))) && dst != rd.buf
    requires forall o: nat, w: nat :: MayReturn(file, o, w, os(o, w))
    modifies rd, rd.buf, dst
    ensures ok ==> dst[..] == SliceOf(file[at..at + Mul(Prod(shape), item)], shape, sp, item)
    ensures (forall o: nat, w: nat | w > 0 :: os(o, w) > 0) ==> ok
  {
    hide Outer, Inner, SliceOf, Prod, Mul;
    var outer, inner := Outer(shape, sp.dim), Inner(shape, sp.dim, item);
    var row, si, li := Mul(shape[sp.dim], inner), Mul(sp.start, inner), Mul(sp.length, inner);
    ghost var d := file[at..at + Mul(Prod(shape), item)];
    GeometryCovers(shape, sp.dim, item);
    RowFits(shape, sp, item);
    SliceIsKept(d, shape, sp, item);
    if dst.Length == 0 { return true; }
    Positive(outer, li);
    if outer == 1 {
      MulOne(row);
      MulOne(li);
      KeptOne(d, row, si, li);
      SliceOfSlice(file, at, |d|, si, li);
      ok := ReadRun(file, at + si, dst, os);
    } else {
      ok := rd.ReadRows(file, at, row, si, li, outer, dst, os);
    }
  }

  lemma SliceIsKept<T>(d: seq<T>, shape: seq<nat>, sp: Spec, item: nat)
    requires Fits(shape, sp) && |d| == Mul(Prod(shape), item)
    ensures
      var outer, inner := Outer(shape, sp.dim), Inner(shape, sp.dim, item);
      var row, si, li := Mul(shape[sp.dim], inner), Mul(sp.start, inner), Mul(sp.length, inner);
      si + li <= row && Mul(outer, row) == |d| && SliceOf(d, shape, sp, item) == Kept(d, row, si, li, outer)
  {
    hide Mul, Prod, Outer, Inner;
    GeometryCovers(shape, sp.dim, item);
    RowFits(shape, sp, item);
  }

  lemma MulOne(n: nat)
    ensures Mul(1, n) == n
  {}

  lemma Positive(a: nat, b: nat)
    requires Mul(a, b) > 0
    ensures a > 0 && b > 0
  {
    MulSign(a, b);
  }

  lemma KeptOne<T>(d: seq<T>, row: nat, si: nat, li: nat)
    requires si + li <= row <= |d|
    ensures Mul(1, row) == row && Kept(d, row, si, li, 1) == d[si..si + li]
  {
    assert Kept(d, row, si, li, 0) == [];
    KeptStep(d, row, si, li, 0, si);
  }

  /* ------------------------------------------------------ the slice, element by element */

  predicate InShape(idx: seq<nat>, shape: seq<nat>) {
    |idx| == |shape| && forall i | 0 <= i < |idx| :: idx[i] < shape[i]
  }

  /** Row-major position of a multi-index. */
  function Index(shape: seq<nat>, idx: seq<nat>): nat
    requires |idx| == |shape|
  {
    var n := |shape|;
    if n == 0 then 0 else Index(shape[..n - 1], idx[..n - 1]) * shape[n - 1] + idx[n - 1]
  }

  /** Position of byte b of an element. */
  function At(shape: seq<nat>, idx: seq<nat>, item: nat, b: nat): nat
    requires |idx| == |shape|
  {
    Mul(Index(shape, idx), item) + b
  }

  lemma {:induction false} IndexBelow(shape: seq<nat>, idx: seq<nat>)
    requires InShape(idx, shape)
    ensures Index(shape, idx) < Prod(shape)
  {
    var n := |shape|;
    if n > 0 {
      IndexBelow(shape[..n - 1], idx[..n - 1]);
      MulMono(Index(shape[..n - 1], idx[..n - 1]) + 1, Prod(shape[..n - 1]), shape[n - 1]);
    }
  }

  lemma Horner(a: nat, p: nat, b: nat, w: nat, x: nat)
    ensures (a * p + b) * w + x == a * (p * w) + (b * w + x)
  {
    Assoc(a, p, w);
  }

  lemma {:induction false} IndexSplit(shape: seq<nat>, idx: seq<nat>, k: nat)
    requires |idx| == |shape| && k <= |shape|
    ensures Index(shape, idx) == Index(shape[..k], idx[..k]) * Prod(shape[k..]) + Index(shape[k..], idx[k..])
  {
    var n := |shape|;
    if k == n {
      assert shape[..n] == shape && idx[..n] == idx && shape[n..] == [] && idx[n..] == [];
      return;
    }
    IndexSplit(shape[..n - 1], idx[..n - 1], k);
    assert shape[..n - 1][..k] == shape[..k] && shape[..n - 1][k..] == shape[k..][..n - 1 - k];
    assert idx[..n - 1][..k] == idx[..k] && idx[..n - 1][k..] == idx[k..][..n - 1 - k];
    var mid, midx := shape[k..][..n - 1 - k], idx[k..][..n - 1 - k];
    Horner(Index(shape[..k], idx[..k]), Prod(mid), Index(mid, midx), shape[n - 1], idx[n - 1]);
  }

  /** The leading dimension split off. */
  lemma Leading(shape: seq<nat>, idx: seq<nat>)
    requires |idx| == |shape| >= 1
    ensures Index(shape, idx) == idx[0] * Prod(shape[1..]) + Index(shape[1..], idx[1..])
    ensures Prod(shape) == shape[0] * Prod(shape[1..])
  {
    IndexSplit(shape, idx, 1);
    ProdSplit(shape, 1);
    assert Prod(shape[..1]) == shape[0] && Index(shape[..1], idx[..1]) == idx[0] by {
      assert shape[..1][..0] == [] && idx[..1][..0] == [];
      assert Prod([]) == 1 && Index([], []) == 0;
    }
    hide Prod, Index;
  }

  /** A position, split around one dimension: o rows, then j steps, then x. */
  lemma IndexAround(shape: seq<nat>, idx: seq<nat>, dim: nat)
    requires |idx| == |shape| && dim < |shape|
    ensures
      var o, p, x := Index(shape[..dim], idx[..dim]), Prod(shape[dim + 1..]), Index(shape[dim + 1..], idx[dim + 1..]);
      Index(shape, idx) == o * (shape[dim] * p) + (idx[dim] * p + x)
  {
    hide Prod, Index;
    IndexSplit(shape, idx, dim);
    var rest, ridx := shape[dim..], idx[dim..];
    Leading(rest, ridx);
    assert rest[1..] == shape[dim + 1..] && ridx[1..] == idx[dim + 1..];
  }

  lemma Spread(o: nat, w: nat, p: nat, j: nat, x: nat, item: nat, b: nat)
    ensures Mul(o * (w * p) + (j * p + x), item) + b
            == Mul(o, Mul(w, Mul(p, item))) + (Mul(j, Mul(p, item)) + (Mul(x, item) + b))
  {
    Assoc(o, w * p, item);
    Assoc(w, p, item);
    Assoc(j, p, item);
  }

  lemma BytePosition(shape: seq<nat>, idx: seq<nat>, dim: nat, item: nat, b: nat)
    requires |idx| == |shape| && dim < |shape|
    ensures
      var o := Index(shape[..dim], idx[..dim]);
      var inner := Inner(shape, dim, item);
      var x := Index(shape[dim + 1..], idx[dim + 1..]);
      At(shape, idx, item, b) == Mul(o, Mul(shape[dim], inner)) + (Mul(idx[dim], inner) + (Mul(x, item) + b))
  {
    IndexAround(shape, idx, dim);
    Spread(Index(shape[..dim], idx[..dim]), shape[dim], Prod(shape[dim + 1..]), idx[dim],
        Index(shape[dim + 1..], idx[dim + 1..]), item, b);
    hide Index, Prod, Mul;
  }

  /** Where an element's bytes lie in the slice and in the full tensor. */
  lemma SlicePositions(shape: seq<nat>, sp: Spec, item: nat, idx: seq<nat>, b: nat, o: nat, y: nat)
    requires Fits(shape, sp) && b < item && InShape(idx, shape[sp.dim := sp.length])
    requires o == Index(shape[..sp.dim], idx[..sp.dim])
    requires y == Mul(idx[sp.dim], Inner(shape, sp.dim, item))
                  + (Mul(Index(shape[sp.dim + 1..], idx[sp.dim + 1..]), item) + b)
    ensures
      var inner := Inner(shape, sp.dim, item);
      && At(shape[sp.dim := sp.length], idx, item, b) == Mul(o, Mul(sp.length, inner)) + y
      && At(shape, idx[sp.dim := idx[sp.dim] + sp.start], item, b)
         == Mul(o, Mul(shape[sp.dim], inner)) + Mul(sp.start, inner) + y
  {
    hide Mul, Index, Prod;
    var part, full := shape[sp.dim := sp.length], idx[sp.dim := idx[sp.dim] + sp.start];
    BytePosition(part, idx, sp.dim, item, b);
    BytePosition(shape, full, sp.dim, item, b);
    assert part[..sp.dim] == shape[..sp.dim] && part[sp.dim + 1..] == shape[sp.dim + 1..];
    assert full[..sp.dim] == idx[..sp.dim] && full[sp.dim + 1..] == idx[sp.dim + 1..];
    MulAdd(sp.start, idx[sp.dim], sp.start + idx[sp.dim], Inner(shape, sp.dim, item));
  }

  lemma InRow(shape: seq<nat>, sp: Spec, item: nat, idx: seq<nat>, b: nat)
    requires Fits(shape, sp) && b < item && InShape(idx, shape[sp.dim := sp.length])
    ensures Index(shape[..sp.dim], idx[..sp.dim]) < Outer(shape, sp.dim)
    ensures
      var inner := Inner(shape, sp.dim, item);
      Mul(idx[sp.dim], inner) + (Mul(Index(shape[sp.dim + 1..], idx[sp.dim + 1..]), item) + b) < Mul(sp.length, inner)
  {
    hide Mul, Index, Prod;
    IndexBelow(shape[..sp.dim], idx[..sp.dim]);
    IndexBelow(shape[sp.dim + 1..], idx[sp.dim + 1..]);
    MulStep(Index(shape[sp.dim + 1..], idx[sp.dim + 1..]), Prod(shape[sp.dim + 1..]), item);
    MulStep(idx[sp.dim], sp.length, Inner(shape, sp.dim, item));
  }

  /** Byte b of the element at idx of the slice is byte b of the element the full tensor has there,
      `start` further along the sliced dimension. */
  lemma SliceElement<T>(d: seq<T>, shape: seq<nat>, sp: Spec, item: nat, idx: seq<nat>, b: nat)
    requires Fits(shape, sp) && |d| == Mul(Prod(shape), item) && b < item
    requires InShape(idx, shape[sp.dim := sp.length])
    ensures
      var here := At(shape[sp.dim := sp.length], idx, item, b);
      var there := At(shape, idx[sp.dim := idx[sp.dim] + sp.start], item, b);
      here < |SliceOf(d, shape, sp, item)| && there < |d| && SliceOf(d, shape, sp, item)[here] == d[there]
  {
    hide Mul, Index, Prod, Kept, Outer, Inner, At;
    var inner := Inner(shape, sp.dim, item);
    var o := Index(shape[..sp.dim], idx[..sp.dim]);
    var y := Mul(idx[sp.dim], inner) + (Mul(Index(shape[sp.dim + 1..], idx[sp.dim + 1..]), item) + b);
    InRow(shape, sp, item, idx, b);
    SlicePositions(shape, sp, item, idx, b, o, y);
    GeometryCovers(shape, sp.dim, item);
    RowFits(shape, sp, item);
    KeptAt(d, Mul(shape[sp.dim], inner), Mul(sp.start, inner), Mul(sp.length, inner), Outer(shape, sp.dim), o, y);
  }

  /* ------------------------------------------------------------------------ the stand-in */

  datatype Tensor<T> = Tensor(shape: seq<nat>, data: seq<T>)

  predicate Shaped<T>(t: Tensor<T>) { |t.data| == Mul(Prod(t.shape), 1) }

  /** torch.narrow. */
  function Narrow<T>(t: Tensor<T>, sp: Spec): (r: Tensor<T>)
    requires Shaped(t) && Fits(t.shape, sp)
    ensures Shaped(r) && r.shape == t.shape[sp.dim := sp.length]
  {
    var part := t.shape[sp.dim := sp.length];
    assert part[..sp.dim] == t.shape[..sp.dim] && part[sp.dim + 1..] == t.shape[sp.dim + 1..];
    GeometryCovers(part, sp.dim, 1);
    Tensor(part, SliceOf(t.data, t.shape, sp, 1))
  }

  /** The full shape, with only `part`, which starts at `start` of dimension `dim`, resident. */
  datatype StandIn<T> = StandIn(part: Tensor<T>, shape: seq<nat>, dim: nat, start: nat)

  /** TpSliceTensor._narrow: a narrow that reaches outside the resident slice is refused. */
  function NarrowIn<T>(s: StandIn<T>, dim: int, start: int, length: int): (r: Option<Tensor<T>>)
    requires s.dim < |s.shape| == |s.part.shape| && Shaped(s.part)
  {
    var d := if dim < 0 then dim + |s.shape| else dim;
    var lo, hi := s.start, s.start + s.part.shape[s.dim];
    if d != s.dim || start < lo || start + length > hi || length < 0 then None
    else if start == lo && length == s.part.shape[d] then Some(s.part)
    else Some(Narrow(s.part, Spec(d, start - lo, length)))
  }

  lemma NarrowTwice<T>(t: Tensor<T>, sp: Spec, start: nat, length: nat)
    requires Shaped(t) && Fits(t.shape, sp) && start + length <= sp.length
    ensures Narrow(Narrow(t, sp), Spec(sp.dim, start, length)) == Narrow(t, Spec(sp.dim, sp.start + start, length))
  {
    hide Prod, Mul, Kept;
    var sp2 := Spec(sp.dim, start, length);
    var part := Narrow(t, sp);
    assert part.shape[..sp.dim] == t.shape[..sp.dim] && part.shape[sp.dim + 1..] == t.shape[sp.dim + 1..];
    var inner := Inner(t.shape, sp.dim, 1);
    GeometryCovers(t.shape, sp.dim, 1);
    RowFits(t.shape, sp, 1);
    RowFits(part.shape, sp2, 1);
    MulAdd(sp.start, start, sp.start + start, inner);
    KeptTwice(t.data, Mul(t.shape[sp.dim], inner), Mul(sp.start, inner), Mul(sp.length, inner), Mul(start, inner),
        Mul(length, inner),
              Outer(t.shape, sp.dim));
    assert part.shape[sp.dim := length] == t.shape[sp.dim := length];
  }

  /** Every narrow the stand-in accepts is the same narrow of the full tensor, and it accepts exactly
      those that stay inside the resident slice. */
  lemma NarrowExact<T>(full: Tensor<T>, sp: Spec, dim: int, start: int, length: int)
    requires Shaped(full) && Fits(full.shape, sp)
    ensures
      var r := NarrowIn(StandIn(Narrow(full, sp), full.shape, sp.dim, sp.start), dim, start, length);
      && (r.Some? <==> (dim == sp.dim || (dim < 0 && dim + |full.shape| == sp.dim))
                       && 0 <= length && sp.start <= start && start + length <= sp.start + sp.length)
      && (r.Some? ==> r.value == Narrow(full, Spec(sp.dim, start, length)))
  {
    hide Narrow, Prod;
    var r := NarrowIn(StandIn(Narrow(full, sp), full.shape, sp.dim, sp.start), dim, start, length);
    if r.Some? && !(start == sp.start && length == sp.length) { NarrowTwice(full, sp, start - sp.start, length); }
  }
}
