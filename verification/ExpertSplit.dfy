/** What the slices of a routed expert are for: with each projection cut as its name says, the ranks' outputs add
    up to the expert's (adapter/fast_load.py). */
module ExpertSplit {
  import opened Options
  import opened IntMath
  import opened RealSums
  import opened SliceRead
  import opened TensorSlice

  /** A quantised projection: weights, and one scale for each b of them along a row. */
  datatype Quant = Quant(w: Tensor<real>, s: Tensor<real>)

  function Entry(t: Tensor<real>, i: nat, j: nat): real {
    if |t.shape| == 2 && Shaped(t) && Index(t.shape, [i, j]) < |t.data| then t.data[Index(t.shape, [i, j])] else 0.0
  }

  function Value(q: Quant, b: nat, i: nat, j: nat): real
    requires b >= 1
  {
    Times(Entry(q.w, i, j), Entry(q.s, i, Quotient(j, b)))
  }

  /** What a rank reads of a tensor. */
  function Read<T>(t: Tensor<T>, sp: Option<Spec>): (r: Tensor<T>)
    requires Shaped(t) && (sp.Some? ==> Fits(t.shape, sp.value))
    ensures Shaped(r)
  {
    if sp.None? then t else Narrow(t, sp.value)
  }

  /** A rank's part of projection `proj` of a routed expert. */
  function Part(q: Quant, proj: string, rank: nat, size: nat): Quant
    requires Shaped(q.w) && Shaped(q.s) && rank < size
  {
    Quant(Read(q.w, SliceSpec(true, Some((proj, "weight")), q.w.shape, Some((rank, size)))),
          Read(q.s, SliceSpec(true, Some((proj, "scale")), q.s.shape, Some((rank, size)))))
  }

  function Terms(q: Quant, b: nat, x: nat -> real, i: nat): nat -> real
    requires b >= 1
  {
    (j: nat) => Times(Value(q, b, i, j), x(j))
  }

  /** Row i of the projection applied to x. */
  function Apply(q: Quant, b: nat, x: nat -> real, i: nat): real
    requires b >= 1 && |q.w.shape| == 2
  {
    Sum(q.w.shape[1], Terms(q, b, x, i))
  }

  function Hidden(w1: Quant, w3: Quant, b: nat, act: (real, real) -> real, x: nat -> real): nat -> real
    requires b >= 1 && |w1.w.shape| == |w3.w.shape| == 2
  {
    (i: nat) => act(Apply(w1, b, x, i), Apply(w3, b, x, i))
  }

  /** Output o of a gated expert: w2 applied to act(w1 x, w3 x). */
  function Output(w1: Quant, w3: Quant, w2: Quant, b: nat, act: (real, real) -> real, x: nat -> real, o: nat): real
    requires b >= 1 && |w1.w.shape| == |w3.w.shape| == |w2.w.shape| == 2
  {
    Apply(w2, b, Hidden(w1, w3, b, act, x), o)
  }

  /** A projection of `rows` by `cols` with its block scales. */
  predicate Projects(q: Quant, rows: nat, cols: nat, scales: nat) {
    Shaped(q.w) && Shaped(q.s) && q.w.shape == [rows, cols] && q.s.shape == [rows, scales]
  }

  lemma NarrowEntry(t: Tensor<real>, sp: Spec, i: nat, j: nat)
    requires Shaped(t) && |t.shape| == 2 && Fits(t.shape, sp)
    requires InShape([i, j], t.shape[sp.dim := sp.length])
    ensures Entry(Narrow(t, sp), i, j)
            == Entry(t, if sp.dim == 0 then i + sp.start else i, if sp.dim == 1 then j + sp.start else j)
  {
    hide Prod, Index, SliceOf;
    var idx := [i, j];
    SliceElement(t.data, t.shape, sp, 1, idx, 0);
    MulOneRight(Index(t.shape[sp.dim := sp.length], idx));
    var there := idx[sp.dim := idx[sp.dim] + sp.start];
    MulOneRight(Index(t.shape, there));
    assert there == [if sp.dim == 0 then i + sp.start else i, if sp.dim == 1 then j + sp.start else j];
  }

  lemma MulOneRight(n: nat)
    ensures Mul(n, 1) == n
  {}

  /** The dimension of [output, input] that a projection is cut along: w1 and w3 by their outputs, w2 by its inputs. */
  function CutDim(proj: string): nat { if proj == "w2" then 1 else 0 }

  predicate Named(proj: string) { proj == "w1" || proj == "w2" || proj == "w3" }

  lemma ShareIs(rank: nat, size: nat, length: nat)
    requires rank < size
    ensures Quotient(size * length, size) == length && (size * length) % size == 0
  {
    QuotientIs(size * length, size, length);
    assert (length * size) % size == 0;
  }

  /** A named tensor is cut to the rank's equal part. */
  lemma ReadShape(t: Tensor<real>, proj: string, kind: string, rank: nat, size: nat, length: nat)
    requires Shaped(t) && |t.shape| == 2 && rank < size && Named(proj) && (kind == "weight" || kind == "scale")
    requires t.shape[CutDim(proj)] == size * length
    ensures
      var sp := SliceSpec(true, Some((proj, kind)), t.shape, Some((rank, size)));
      && sp == Some(Spec(CutDim(proj), rank * length, length)) && Fits(t.shape, sp.value)
      && Read(t, sp) == Narrow(t, sp.value)
  {
    hide SliceOf, Narrow;
    ShareIs(rank, size, length);
  }

  /** p holds rows at .. at + n of q. */
  ghost predicate RowsOf(p: Quant, q: Quant, b: nat, at: nat, n: nat, cols: nat)
    requires b >= 1
  {
    && p.w.shape == [n, cols]
    && forall i: nat, j: nat | i < n && j < cols :: Value(p, b, i, j) == Value(q, b, at + i, j)
  }

  /** p holds columns at .. at + n of q. */
  ghost predicate ColumnsOf(p: Quant, q: Quant, b: nat, at: nat, n: nat, rows: nat)
    requires b >= 1
  {
    && p.w.shape == [rows, n]
    && forall o: nat, i: nat | o < rows && i < n :: Value(p, b, o, i) == Value(q, b, o, at + i)
  }

  /** Row i of a part of w1 or w3 is row rank * length + i of the whole. */
  lemma RowsPart(q: Quant, proj: string, rank: nat, size: nat, length: nat, cols: nat, scales: nat, b: nat)
    requires (proj == "w1" || proj == "w3") && rank < size && Projects(q, size * length, cols, scales)
    requires b >= 1 && cols <= scales * b
    ensures RowsOf(Part(q, proj, rank, size), q, b, rank * length, length, cols)
  {
    hide Shaped, Narrow, Entry, SliceSpec, Times;
    ReadShape(q.w, proj, "weight", rank, size, length);
    ReadShape(q.s, proj, "scale", rank, size, length);
    var p := Part(q, proj, rank, size);
    var sp := Spec(0, rank * length, length);
    forall i: nat, j: nat | i < length && j < cols ensures Value(p, b, i, j) == Value(q, b, rank * length + i, j) {
      ScaleColumn(j, b, cols, scales);
      NarrowEntry(q.w, sp, i, j);
      NarrowEntry(q.s, sp, i, Quotient(j, b));
    }
  }

  lemma ScaleColumn(j: nat, b: nat, cols: nat, scales: nat)
    requires b >= 1 && j < cols <= scales * b
    ensures Quotient(j, b) < scales
  {
    if Quotient(j, b) >= scales { MulMono(scales, Quotient(j, b), b); }
  }

  /** Column i of a part of w2 is column rank * length * b + i of the whole, and so is its scale. */
  lemma ColumnsPart(q: Quant, rank: nat, size: nat, length: nat, rows: nat, b: nat)
    requires rank < size && b >= 1 && Projects(q, rows, size * (length * b), size * length)
    ensures ColumnsOf(Part(q, "w2", rank, size), q, b, rank * (length * b), length * b, rows)
  {
    hide Shaped, Narrow, Entry, SliceSpec, Times;
    ReadShape(q.w, "w2", "weight", rank, size, length * b);
    ReadShape(q.s, "w2", "scale", rank, size, length);
    var p := Part(q, "w2", rank, size);
    forall o: nat, i: nat | o < rows && i < length * b
      ensures Value(p, b, o, i) == Value(q, b, o, rank * (length * b) + i)
    {
      ScaleColumn(i, b, length * b, length);
      NarrowEntry(q.w, Spec(1, rank * (length * b), length * b), o, i);
      NarrowEntry(q.s, Spec(1, rank * length, length), o, Quotient(i, b));
      ScaleShift(rank, length, b, i);
    }
  }

  lemma ScaleShift(rank: nat, length: nat, b: nat, i: nat)
    requires b >= 1
    ensures Quotient(rank * (length * b) + i, b) == rank * length + Quotient(i, b)
  {
    var k := Quotient(i, b);
    assert rank * (length * b) == (rank * length) * b && (rank * length + k) * b == (rank * length) * b + k * b;
    QuotientIs(rank * (length * b) + i, b, rank * length + k);
  }

  /* ------------------------------------------------------------------- the sum of the ranks */

  /** One rank's output, from its parts alone. */
  function RankOutput(w1: Quant, w3: Quant, w2: Quant, b: nat, act: (real, real) -> real, x: nat -> real, o: nat,
          size: nat): nat -> real
    requires b >= 1 && Shaped(w1.w) && Shaped(w1.s) && Shaped(w3.w) && Shaped(w3.s) && Shaped(w2.w) && Shaped(w2.s)
    requires |w1.w.shape| == |w3.w.shape| == |w2.w.shape| == 2
  {
    (r: nat) =>
      if r < size then Output(Part(w1, "w1", r, size), Part(w3, "w3", r, size), Part(w2, "w2", r, size), b, act, x, o)
      else 0.0
  }

  lemma {:induction false} SumShift(a: nat, n: nat, f: nat -> real, g: nat -> real)
    requires forall i: nat | i < n :: g(i) == f(a + i)
    ensures Sum(a + n, f) == Sum(a, f) + Sum(n, g)
  {
    if n > 0 { SumShift(a, n - 1, f, g); }
  }

  /** A rank's hidden units are its part of the expert's. */
  lemma HiddenPart(p1: Quant, p3: Quant, w1: Quant, w3: Quant, b: nat, act: (real, real) -> real, x: nat -> real,
          at: nat, n: nat, cols: nat)
    requires b >= 1 && RowsOf(p1, w1, b, at, n, cols) && RowsOf(p3, w3, b, at, n, cols)
    requires |w1.w.shape| == |w3.w.shape| == 2 && w1.w.shape[1] == w3.w.shape[1] == cols
    ensures forall i: nat | i < n :: Hidden(p1, p3, b, act, x)(i) == Hidden(w1, w3, b, act, x)(at + i)
  {
    hide Value, Times;
    forall i: nat | i < n ensures Hidden(p1, p3, b, act, x)(i) == Hidden(w1, w3, b, act, x)(at + i) {
      SumEq(cols, Terms(p1, b, x, i), Terms(w1, b, x, at + i));
      SumEq(cols, Terms(p3, b, x, i), Terms(w3, b, x, at + i));
      assert Apply(p1, b, x, i) == Apply(w1, b, x, at + i) && Apply(p3, b, x, i) == Apply(w3, b, x, at + i);
    }
  }

  /** A rank's terms of output o are the columns it holds of w2, against its own hidden units. */
  lemma TermsPart(p2: Quant, w2: Quant, b: nat, h: nat -> real, hp: nat -> real, o: nat, at: nat, n: nat, rows: nat)
    requires b >= 1 && o < rows && ColumnsOf(p2, w2, b, at, n, rows)
    requires forall i: nat | i < n :: hp(i) == h(at + i)
    ensures Sum(at, Terms(w2, b, h, o)) + Apply(p2, b, hp, o) == Sum(at + n, Terms(w2, b, h, o))
  {
    hide Value, Times;
    SumShift(at, n, Terms(w2, b, h, o), Terms(p2, b, hp, o));
  }

  /** Adding rank r takes the sum from its first column of w2 to the next rank's. */
  lemma RankAdds(w1: Quant, w3: Quant, w2: Quant, b: nat, act: (real, real) -> real, x: nat -> real, o: nat, r: nat,
          size: nat, length: nat, L: nat, rows: nat, cols: nat, scales: nat, f: nat -> real)
    requires r < size && b >= 1 && o < rows && cols <= scales * b && L == length * b
    requires Projects(w1, size * L, cols, scales) && Projects(w3, size * L, cols, scales)
    requires Projects(w2, rows, size * L, size * length) && f == Terms(w2, b, Hidden(w1, w3, b, act, x), o)
    ensures Sum(r * L, f) + RankOutput(w1, w3, w2, b, act, x, o, size)(r) == Sum(r * L + L, f)
  {
    hide Terms, Hidden, Part, Apply, Sum, Shaped, Value;
    var p1, p3, p2 := Part(w1, "w1", r, size), Part(w3, "w3", r, size), Part(w2, "w2", r, size);
    RowsPart(w1, "w1", r, size, L, cols, scales, b);
    RowsPart(w3, "w3", r, size, L, cols, scales, b);
    ColumnsPart(w2, r, size, length, rows, b);
    HiddenPart(p1, p3, w1, w3, b, act, x, r * L, L, cols);
    TermsPart(p2, w2, b, Hidden(w1, w3, b, act, x), Hidden(p1, p3, b, act, x), o, r * L, L, rows);
  }

  /** With each projection cut as its name says, the ranks' outputs add up to the expert's: for every input, every
      elementwise activation, every block size and every number of ranks that divides the blocks. */
  lemma SlicesAddUp(w1: Quant, w3: Quant, w2: Quant, b: nat, act: (real, real) -> real, x: nat -> real, o: nat,
          size: nat, length: nat, rows: nat, cols: nat, scales: nat)
    requires size >= 1 && b >= 1 && o < rows && cols <= scales * b
    requires Projects(w1, size * (length * b), cols, scales) && Projects(w3, size * (length * b), cols, scales)
    requires Projects(w2, rows, size * (length * b), size * length)
    ensures Sum(size, RankOutput(w1, w3, w2, b, act, x, o, size)) == Output(w1, w3, w2, b, act, x, o)
  {
    hide RankOutput, Terms, Hidden, Part;
    var L := length * b;
    var f, F := Terms(w2, b, Hidden(w1, w3, b, act, x), o), RankOutput(w1, w3, w2, b, act, x, o, size);
    for r := 0 to size
      invariant Sum(r, F) == Sum(r * L, f)
    {
      RankAdds(w1, w3, w2, b, act, x, o, r, size, length, L, rows, cols, scales, f);
      assert (r + 1) * L == r * L + L;
    }
  }
}
