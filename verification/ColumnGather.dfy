/** The split's all-gather: the compact variants, each checked once per row count, and the padded one. */
module ColumnGather {
  import opened Seqs
  import opened IntMath
  import opened ColumnSplit

  datatype Kind = Roce | Minimal

  predicate Uniform<C>(full: seq<seq<C>>, n: nat) { forall m | 0 <= m < |full| :: |full[m]| == n }

  /** Rank r's padded [M, width] part. */
  function RankRows<C>(f: Form, full: seq<seq<C>>, n: nat, world: nat, zero: C, r: nat): (p: seq<seq<C>>)
    requires Splits(n, world) && Uniform(full, n) && r < world
    ensures |p| == |full|
  {
    seq(|full|, m requires 0 <= m < |full| => Parts(f, full[m], world, zero)[r])
  }

  /** all_gather along the rows: [world * M, width]. */
  function RowGather<C>(f: Form, full: seq<seq<C>>, n: nat, world: nat, zero: C): (g: seq<seq<C>>)
    requires Splits(n, world) && Uniform(full, n)
    ensures |g| == Mul(world, |full|)
  {
    var ps := seq(world, r requires 0 <= r < world => RankRows(f, full, n, world, zero, r));
    ChunksBack(ps, |full|);
    Concat(ps)
  }

  /** Row m of the [world, M, width] view. */
  function Stacked<C>(g: seq<seq<C>>, world: nat, M: nat, m: nat): (p: seq<seq<C>>)
    requires |g| == Mul(world, M) && m < M
  {
    seq(world, r requires 0 <= r < world => Chunk(g, world, M, r)[m])
  }

  lemma StackedIsParts<C>(f: Form, full: seq<seq<C>>, n: nat, world: nat, zero: C, m: nat)
    requires Splits(n, world) && Uniform(full, n) && m < |full|
    ensures Stacked(RowGather(f, full, n, world, zero), world, |full|, m) == Parts(f, full[m], world, zero)
  {
    hide Parts, Tiles, Chunk, Mul, Concat;
    var ps := seq(world, r requires 0 <= r < world => RankRows(f, full, n, world, zero, r));
    ChunksBack(ps, |full|);
    var g := RowGather(f, full, n, world, zero);
    forall r: nat | r < world ensures Chunk(g, world, |full|, r)[m] == Parts(f, full[m], world, zero)[r] {
      assert Chunk(Concat(ps), |ps|, |full|, r) == ps[r];
    }
  }

  /** Column c is one of rank r's own. */
  predicate Owned(n: nat, world: nat, r: nat, c: nat)
    requires world >= 1
  {
    Lo(n, world, r) <= c < Lo(n, world, r) + Own(n, world, r)
  }

  /** One rank's write: its own columns of its part, at their place in the output row. */
  method WriteOwn<C>(f: Form, full: seq<C>, world: nat, r: nat, out: array<C>)
    requires Splits(|full|, world) && r < world && out.Length == |full|
    modifies out
    ensures forall c: nat | c < |full| :: out[c] == if Owned(|full|, world, r, c) then full[c] else old(out[c])
  {
    hide Lo, Own, Off, Local, Splits, Width;
    RangesPartition(|full|, world, r);
    LocalHolds(f, full, world, r);
    var local, off := Local(f, full, world, r), Off(f, |full|, world, r);
    var lo, own := Lo(|full|, world, r), Own(|full|, world, r);
    forall c | lo <= c < lo + own { out[c] := local[off + (c - lo)]; }
    forall c | lo <= c < lo + own ensures out[c] == full[c] {
      assert local[off..off + own][c - lo] == OwnColumns(full, world, r)[c - lo];
    }
  }

  /** The columns kernel: the ranks' columns land in whatever order the ranks arrive. */
  method ScatterColumns<C>(f: Form, full: seq<C>, world: nat, zero: C, order: seq<nat>) returns (row: seq<C>)
    requires Splits(|full|, world) && forall r: nat | r < world :: r in order
    requires forall i | 0 <= i < |order| :: order[i] < world
    ensures row == full
  {
    hide Owned;
    var n := |full|;
    var out := new C[n](i => zero);
    var k := 0;
    while k < |order|
      invariant k <= |order|
      invariant forall i: nat, c: nat | i < k && c < n && Owned(n, world, order[i], c) :: out[c] == full[c]
    {
      WriteOwn(f, full, world, order[k], out);
      k := k + 1;
    }
    forall c: nat | c < n ensures out[c] == full[c] {
      var i := WriterOf(n, world, order, c);
    }
    row := out[..];
  }

  lemma WriterOf(n: nat, world: nat, order: seq<nat>, c: nat) returns (i: nat)
    requires Splits(n, world) && c < n && forall r: nat | r < world :: r in order
    ensures i < |order| && Owned(n, world, order[i], c)
  {
    hide Lo, Own, Tiles;
    RangesPartition(n, world, 0);
    var r := OwnerOf(n, world, c, world);
    assert r in order;
    i :| i < |order| && order[i] == r;
  }

  /** _agree: the MIN of every rank's flag, the same on every rank. */
  predicate Agreed(flags: seq<bool>) { forall r | 0 <= r < |flags| :: flags[r] }

  /** A split layer: which compact variants passed their first-call check, per row count. */
  class Layer {
    var checked: map<(Kind, nat), bool>

    constructor ()
      ensures checked == map[]
    {
      checked := map[];
    }

    /** The output is the stock layer's, whatever has been checked; the first eager call of a variant
        and row count decides it for all ranks, and only a rank without the columns kernel (`ready`) can
        turn it off. */
    method Gather<C(==)>(f: Form, full: seq<seq<C>>, n: nat, world: nat, zero: C, compact: bool, kind: Kind,
            ready: seq<bool>, capturing: bool, order: seq<nat>)
      returns (out: seq<seq<C>>)
      requires Splits(n, world) && Uniform(full, n)
      requires (forall r: nat | r < world :: r in order) && forall i | 0 <= i < |order| :: order[i] < world
      modifies this
      ensures out == full
      ensures checked == if compact && !capturing && (kind, |full|) !in old(checked)
                         then old(checked)[(kind, |full|) := kind.Minimal? || Agreed(ready)] else old(checked)
    {
      if compact {
        var key := (kind, |full|);
        if key !in checked && !capturing {
          var ok := kind.Minimal? || Agreed(ready);
          if ok {
            var new_ := RunCompact(f, full, n, world, zero, kind, order);
            var old_ := RunPadded(f, full, n, world, zero);
            ok := Agreed(seq(world, r => new_ == old_));
          }
          checked := checked[key := ok];
        }
        if key in checked && checked[key] {
          out := RunCompact(f, full, n, world, zero, kind, order);
          return;
        }
      }
      out := RunPadded(f, full, n, world, zero);
    }
  }

  /** _run_compact. */
  method RunCompact<C>(f: Form, full: seq<seq<C>>, n: nat, world: nat, zero: C, kind: Kind, order: seq<nat>)
    returns (out: seq<seq<C>>)
    requires Splits(n, world) && Uniform(full, n)
    requires (forall r: nat | r < world :: r in order) && forall i | 0 <= i < |order| :: order[i] < world
    ensures out == full
  {
    out := [];
    while |out| < |full|
      invariant |out| <= |full| && out == full[..|out|]
    {
      var m := |out|;
      var row;
      if kind.Roce? {
        row := ScatterColumns(f, full[m], world, zero, order);
      } else {
        StackedIsParts(f, full, n, world, zero, m);
        StackedIsFull(f, full[m], world, zero);
        var parts := Stacked(RowGather(f, full, n, world, zero), world, |full|, m);
        row := Cat(parts, Offs(f, n, world), Owns(n, world), world);
      }
      out := out + [row];
    }
  }

  /** The padded gather along the columns, and the reorder. */
  method RunPadded<C>(f: Form, full: seq<seq<C>>, n: nat, world: nat, zero: C) returns (out: seq<seq<C>>)
    requires Splits(n, world) && Uniform(full, n)
    ensures out == full
  {
    forall m | 0 <= m < |full|
      ensures |Owns(n, world)| == |Offs(f, n, world)| == world
      ensures |Concat(Parts(f, full[m], world, zero))| == Mul(world, Width(n, world))
      ensures forall r | 0 <= r < world :: Offs(f, n, world)[r] + Owns(n, world)[r] <= Width(n, world)
      ensures Assemble(Concat(Parts(f, full[m], world, zero)), Offs(f, n, world), Owns(n, world), Width(n, world))
              == full[m]
    {
      AssembleIsFull(f, full[m], world, zero);
    }
    hide Splits, Parts, Offs, Owns, Width, Assemble;
    out := seq(|full|, m requires 0 <= m < |full| =>
      Assemble(Concat(Parts(f, full[m], world, zero)), Offs(f, n, world), Owns(n, world), Width(n, world)));
  }
}
