/** The screening tables of the certified head (adapter/cert_head.py): residual norms per group and row
    norms, filled in row chunks and rounded up, infinite where the screen's own copy is not exact. */
module CertTables {
  import opened Options
  import opened IntMath
  import opened RealSums
  import opened CertBound

  /** A head shard: V weight rows, their dequantised copies, and the rows whose copy the kernel's cast
      changes. */
  datatype Head = Head(V: nat, NG: nat, G: nat, w: nat -> Row, d: nat -> Row, unsafe: nat -> bool)

  /** Arithmetic of the build: a square root inflated past its own error, and two roundings up, the narrow
      one overflowing to infinity (None). */
  datatype Rounding = Rounding(root: real -> real, up32: real -> real, up16: real -> Option<real>)

  ghost predicate RoundsUp(a: Rounding) {
    && (forall x: real | x >= 0.0 :: a.root(x) >= 0.0 && Times(a.root(x), a.root(x)) >= x)
    && (forall x: real :: a.up32(x) >= x)
    && (forall x: real :: a.up16(x).Some? ==> a.up16(x).value >= x)
  }

  function Residual(h: Head, v: nat, g: nat): nat -> real { Diff(h.w(v)(g), h.d(v)(g)) }

  /** Square of a row's norm. */
  function Square(NG: nat, G: nat, w: Row): real { RowDot(NG, G, w, w) }

  function Larger(a: real, b: real): real { if a >= b then a else b }

  /** Entry of the residual table. */
  function GroupEntry(h: Head, a: Rounding, v: nat, g: nat): Option<real> {
    if h.unsafe(v) then None
    else a.up16(a.up32(a.root(Dot(h.G, Residual(h, v, g), Residual(h, v, g)))))
  }

  function NormEntry(h: Head, a: Rounding, v: nat): real {
    a.up32(Larger(a.root(Square(h.NG, h.G, h.w(v))), a.root(Square(h.NG, h.G, h.d(v)))))
  }

  const CHUNK: nat := 1024

  /** build_tables: every entry bounds its norm from above, and an unsafe row is infinite. */
  method BuildTables(h: Head, a: Rounding) returns (rt: array2<Option<real>>, nv: array<real>)
    requires RoundsUp(a)
    ensures Built(h, rt, nv)
    ensures forall g: nat, v: nat | g < h.NG && v < h.V && rt[g, v].None? ::
              h.unsafe(v) || a.up16(a.up32(a.root(Dot(h.G, Residual(h, v, g), Residual(h, v, g))))).None?
  {
    rt := new Option<real>[h.NG, h.V]((_, _) => None);
    nv := new real[h.V](_ => 0.0);
    forall g: nat, v: nat ensures BoundsGroup(h, v, g, GroupEntry(h, a, v, g)) { GroupSound(h, a, v, g); }
    forall v: nat ensures BoundsRow(h, v, NormEntry(h, a, v)) { RowSound(h, a, v); }
    forall g: nat, v: nat ensures GroupEntry(h, a, v, g).None? ==> Missing(h, a, v, g) {}
    hide GroupEntry, NormEntry, BoundsGroup, BoundsRow, Missing;
    var r0 := 0;
    while r0 < h.V
      invariant r0 <= h.V
      invariant forall g: nat, v: nat | g < h.NG && v < r0 :: BoundsGroup(h, v, g, rt[g, v])
      invariant forall v: nat | v < r0 :: BoundsRow(h, v, nv[v])
      invariant forall g: nat, v: nat | g < h.NG && v < r0 && rt[g, v].None? :: Missing(h, a, v, g)
    {
      var r1 := Min(h.V, r0 + CHUNK);
      forall g, v | 0 <= g < h.NG && r0 <= v < r1 { rt[g, v] := GroupEntry(h, a, v, g); }
      forall v | r0 <= v < r1 { nv[v] := NormEntry(h, a, v); }
      r0 := r1;
    }
    MissingMeans(h, a);
  }

  /** Why an entry may be infinite: the cast changes the row, or the norm overflows the narrow format. */
  predicate Missing(h: Head, a: Rounding, v: nat, g: nat) {
    h.unsafe(v) || a.up16(a.up32(a.root(Dot(h.G, Residual(h, v, g), Residual(h, v, g))))).None?
  }

  lemma MissingMeans(h: Head, a: Rounding)
    ensures forall g: nat, v: nat | Missing(h, a, v, g) ::
              h.unsafe(v) || a.up16(a.up32(a.root(Dot(h.G, Residual(h, v, g), Residual(h, v, g))))).None?
  {}

  /** The tables of h: every entry bounds the norm it stands for. */
  ghost predicate Built(h: Head, rt: array2<Option<real>>, nv: array<real>)
    reads rt, nv
  {
    && rt.Length0 == h.NG && rt.Length1 == h.V && nv.Length == h.V
    && (forall g: nat, v: nat | g < h.NG && v < h.V :: BoundsGroup(h, v, g, rt[g, v]))
    && (forall v: nat | v < h.V :: BoundsRow(h, v, nv[v]))
  }

  /** A finite entry is at least the norm of the group's residual; an unsafe row has none. */
  ghost predicate BoundsGroup(h: Head, v: nat, g: nat, e: Option<real>) {
    e.Some? ==>
      && !h.unsafe(v) && e.value >= 0.0
      && Dot(h.G, Residual(h, v, g), Residual(h, v, g)) <= Times(e.value, e.value)
  }

  /** At least the norm of the row and of its copy. */
  ghost predicate BoundsRow(h: Head, v: nat, n: real) {
    n >= 0.0 && Square(h.NG, h.G, h.w(v)) <= Times(n, n) && Square(h.NG, h.G, h.d(v)) <= Times(n, n)
  }

  lemma Grows(x: real, y: real)
    requires 0.0 <= x <= y
    ensures Times(x, x) <= Times(y, y)
  {
    ProductBound(x, y, x, y);
  }

  lemma GroupSound(h: Head, a: Rounding, v: nat, g: nat)
    requires RoundsUp(a)
    ensures BoundsGroup(h, v, g, GroupEntry(h, a, v, g))
  {
    var s := Dot(h.G, Residual(h, v, g), Residual(h, v, g));
    DotSelf(h.G, Residual(h, v, g));
    var e := GroupEntry(h, a, v, g);
    if e.Some? {
      assert e.value >= a.up32(a.root(s)) >= a.root(s);
      Grows(a.root(s), e.value);
    }
  }

  lemma RowSound(h: Head, a: Rounding, v: nat)
    requires RoundsUp(a)
    ensures BoundsRow(h, v, NormEntry(h, a, v))
  {
    SquareNonneg(h.NG, h.G, h.w(v));
    SquareNonneg(h.NG, h.G, h.d(v));
    var x, y, n := a.root(Square(h.NG, h.G, h.w(v))), a.root(Square(h.NG, h.G, h.d(v))), NormEntry(h, a, v);
    assert n >= Larger(x, y);
    Grows(x, n);
    Grows(y, n);
    hide Square, Times;
  }

  lemma SquareNonneg(NG: nat, G: nat, w: Row)
    ensures Square(NG, G, w) >= 0.0
  {
    var f := (g: nat) => Dot(G, w(g), w(g));
    forall g: nat | g < NG ensures f(g) >= 0.0 { DotSelf(G, w(g)); }
    SumNonneg(NG, f);
  }

  /** The entries of a token, group by group. */
  function Entries(rt: array2<Option<real>>, v: nat): (col: seq<Option<real>>)
    reads rt
    requires v < rt.Length1
    ensures |col| == rt.Length0 && forall g: nat | g < rt.Length0 :: col[g] == rt[g, v]
  {
    seq(rt.Length0, g requires 0 <= g < rt.Length0 reads rt => rt[g, v])
  }

  /** The finite entries of a token's column, as the R_g of the error bound. */
  function Column(rt: seq<Option<real>>): nat -> real {
    (g: nat) => if g < |rt| && rt[g].Some? then rt[g].value else 0.0
  }

  /** A token whose entries are all finite meets the hypothesis of the error bound, with the input norms X. */
  lemma ColumnBounds(h: Head, v: nat, x: Row, X: nat -> real, rt: seq<Option<real>>)
    requires |rt| == h.NG && forall g: nat | g < h.NG :: rt[g].Some? && BoundsGroup(h, v, g, rt[g])
    requires forall g: nat | g < h.NG :: X(g) >= 0.0 && Dot(h.G, x(g), x(g)) <= Times(X(g), X(g))
    ensures NormsBound(h.NG, h.G, h.w(v), h.d(v), x, Column(rt), X)
  {
    hide Dot, Times;
    forall g: nat | g < h.NG
      ensures Column(rt)(g) >= 0.0
      ensures Dot(h.G, Diff(h.w(v)(g), h.d(v)(g)), Diff(h.w(v)(g), h.d(v)(g)))
              <= Times(Column(rt)(g), Column(rt)(g))
    {
      assert BoundsGroup(h, v, g, rt[g]);
    }
  }
}
