/** Column split of a replicated linear layer (adapter/replicated_split.py): each rank computes the
    columns of its own weight tiles, and every form of the gather gives back the whole layer's columns. */
module ColumnSplit {
  import opened Seqs
  import opened IntMath

  const TILE: nat := 128

  /* ---------------------------------------------------------------------------- ranges */

  function Tiles(n: nat): nat { Quotient(n, TILE) }

  /** Tiles of rank r: spread as evenly as possible, the first ranks taking one more. */
  function Count(tiles: nat, world: nat, r: nat): nat
    requires world >= 1
  {
    Quotient(tiles, world) + if r < tiles - Quotient(tiles, world) * world then 1 else 0
  }

  function SumCounts(tiles: nat, world: nat, r: nat): nat
    requires world >= 1
  {
    if r == 0 then 0 else SumCounts(tiles, world, r - 1) + Count(tiles, world, r - 1)
  }

  function MaxCount(tiles: nat, world: nat, r: nat): (m: nat)
    requires world >= 1
    ensures forall i: nat | i < r :: Count(tiles, world, i) <= m
    ensures r >= 1 ==> exists i: nat :: i < r && Count(tiles, world, i) == m
  {
    if r == 0 then 0
    else
      var m, c := MaxCount(tiles, world, r - 1), Count(tiles, world, r - 1);
      if r == 1 || c > m then c else m
  }

  function Lo(n: nat, world: nat, r: nat): nat
    requires world >= 1
  {
    SumCounts(Tiles(n), world, r) * TILE
  }

  function Own(n: nat, world: nat, r: nat): nat
    requires world >= 1
  {
    Count(Tiles(n), world, r) * TILE
  }

  function Width(n: nat, world: nat): nat
    requires world >= 1
  {
    MaxCount(Tiles(n), world, world) * TILE
  }

  /** What decide() asks of a layer: whole tiles, at least one per rank. */
  predicate Splits(n: nat, world: nat) { world >= 1 && n == Tiles(n) * TILE && Tiles(n) >= world }

  lemma {:induction false} SumClosed(tiles: nat, world: nat, r: nat)
    requires world >= 1 && r <= world
    ensures
      var base := Quotient(tiles, world);
      var extra := tiles - base * world;
      SumCounts(tiles, world, r) == r * base + if r < extra then r else extra
  {
    if r > 0 {
      SumClosed(tiles, world, r - 1);
      var base := Quotient(tiles, world);
      assert r * base == (r - 1) * base + base;
      hide Quotient;
    }
  }

  lemma {:induction false} SumMono(tiles: nat, world: nat, a: nat, b: nat)
    requires world >= 1 && a <= b
    ensures SumCounts(tiles, world, a) <= SumCounts(tiles, world, b)
  {
    if a < b { SumMono(tiles, world, a, b - 1); }
  }

  /** The ranges start at 0, follow one another without gap or overlap, and end at n; none is empty
      or wider than the gather's width. */
  lemma RangesPartition(n: nat, world: nat, r: nat)
    requires Splits(n, world) && r < world
    ensures Lo(n, world, 0) == 0 && Lo(n, world, world) == n
    ensures Lo(n, world, r + 1) == Lo(n, world, r) + Own(n, world, r) <= n
    ensures 0 < Own(n, world, r) <= Width(n, world) <= n
  {
    var t := Tiles(n);
    SumClosed(t, world, world);
    SumMono(t, world, r + 1, world);
    var i: nat :| i < world && Count(t, world, i) == MaxCount(t, world, world);
    SumMono(t, world, i + 1, world);
    assert Quotient(t, world) >= 1 by { QuotientMono(world, t, world); QuotientIs(world, world, 1); }
    hide SumCounts, Count, MaxCount, Quotient;
  }

  /** Each column belongs to exactly one rank. */
  lemma {:induction false} OwnerOf(n: nat, world: nat, c: nat, k: nat) returns (r: nat)
    requires Splits(n, world) && k <= world && c < Lo(n, world, k)
    ensures r < k && Lo(n, world, r) <= c < Lo(n, world, r) + Own(n, world, r)
    ensures forall s: nat | s < k && Lo(n, world, s) <= c < Lo(n, world, s) + Own(n, world, s) :: s == r
  {
    RangesPartition(n, world, k - 1);
    if c >= Lo(n, world, k - 1) {
      r := k - 1;
      forall s: nat | s < r ensures Lo(n, world, s) + Own(n, world, s) <= c {
        RangesPartition(n, world, s);
        SumMono(Tiles(n), world, s + 1, r);
      }
    } else {
      r := OwnerOf(n, world, c, k - 1);
    }
  }

  /** Start of the width-column window a rank computes. */
  function Window(n: nat, lo: nat, width: nat): int { if lo <= n - width then lo else n - width }

  /** The window lies inside the weight, starts on a tile, and contains the rank's range. */
  lemma WindowHolds(n: nat, world: nat, r: nat)
    requires Splits(n, world) && r < world
    ensures var w := Window(n, Lo(n, world, r), Width(n, world));
            && 0 <= w <= Lo(n, world, r) && w + Width(n, world) <= n && w % TILE == 0
            && Lo(n, world, r) + Own(n, world, r) <= w + Width(n, world)
  {
    hide Count, SumCounts, MaxCount;
    RangesPartition(n, world, r);
    var t := Tiles(n);
    var m := MaxCount(t, world, world);
    assert n - Width(n, world) == (t - m) * TILE;
    assert Lo(n, world, r) % TILE == 0 && (t - m) * TILE % TILE == 0;
    hide Lo, Own, Width, Splits, Tiles;
  }

  /* --------------------------------------------------------------- one rank's part of a row */

  datatype Form = Sliced | Windowed

  /** Where rank r's own columns start inside its part. */
  function Off(f: Form, n: nat, world: nat, r: nat): (o: nat)
    requires Splits(n, world) && r < world
  {
    WindowHolds(n, world, r);
    if f.Sliced? then 0 else Lo(n, world, r) - Window(n, Lo(n, world, r), Width(n, world))
  }

  /** Rank r's own columns of the stock row. */
  function OwnColumns<C>(full: seq<C>, world: nat, r: nat): (c: seq<C>)
    requires Splits(|full|, world) && r < world
    ensures |c| == Own(|full|, world, r)
  {
    RangesPartition(|full|, world, r);
    full[Lo(|full|, world, r)..Lo(|full|, world, r) + Own(|full|, world, r)]
  }

  /** The columns rank r's proxy layer computes, of the stock row `full`. */
  function Local<C>(f: Form, full: seq<C>, world: nat, r: nat): (p: seq<C>)
    requires Splits(|full|, world) && r < world
    ensures |p| == if f.Sliced? then Own(|full|, world, r) else Width(|full|, world)
  {
    WindowHolds(|full|, world, r);
    var w := Window(|full|, Lo(|full|, world, r), Width(|full|, world));
    if f.Sliced? then OwnColumns(full, world, r) else full[w..w + Width(|full|, world)]
  }

  /** Either form's part holds the rank's own columns at its offset. */
  lemma LocalHolds<C>(f: Form, full: seq<C>, world: nat, r: nat)
    requires Splits(|full|, world) && r < world
    ensures
      var o, own, p := Off(f, |full|, world, r), Own(|full|, world, r), Local(f, full, world, r);
      o + own <= |p| <= Width(|full|, world) && p[o..o + own] == OwnColumns(full, world, r)
  {
    hide Lo, Own, Width, Splits;
    WindowHolds(|full|, world, r);
    RangesPartition(|full|, world, r);
    if f.Windowed? {
      SliceOfSlice(full, Window(|full|, Lo(|full|, world, r), Width(|full|, world)), Width(|full|, world),
                   Off(f, |full|, world, r), Own(|full|, world, r));
    }
  }

  /** padded(): filled with anything on the right. */
  function Padded<C>(p: seq<C>, width: nat, zero: C): (q: seq<C>)
    requires |p| <= width
    ensures |q| == width && p == q[..|p|]
  {
    p + seq(width - |p|, i => zero)
  }

  /* ------------------------------------------------------------------------ the gathers */

  lemma {:induction false} PartAt<C>(parts: seq<seq<C>>, width: nat, r: nat)
    requires Even(parts, width) && r < |parts|
    ensures |Concat(parts)| == Mul(|parts|, width) && Mul(r, width) + width <= Mul(|parts|, width)
    ensures Concat(parts)[Mul(r, width)..Mul(r, width) + width] == parts[r]
  {
    hide Mul;
    var k := |parts| - 1;
    var rest := parts[..k];
    MulStep(r, |parts|, width);
    MulStep(k, |parts|, width);
    if k > 0 { PartAt(rest, width, if r < k then r else 0); }
    assert |Concat(rest)| == Mul(k, width) by { if k == 0 { assert rest == []; } }
    if r < k {
      MulStep(r, k, width);
      InPrefix(Concat(rest), Concat(parts), Mul(r, width), width);
      assert rest[r] == parts[r];
    } else {
      assert Concat(parts) == Concat(rest) + parts[k];
    }
  }

  /** Own columns of the first k parts, one after the other. */
  function Cat<C>(parts: seq<seq<C>>, offs: seq<nat>, owns: seq<nat>, k: nat): seq<C>
    requires k <= |parts| == |offs| == |owns| && forall r | 0 <= r < |parts| :: offs[r] + owns[r] <= |parts[r]|
  {
    if k == 0 then [] else Cat(parts, offs, owns, k - 1) + parts[k - 1][offs[k - 1]..offs[k - 1] + owns[k - 1]]
  }

  /** The parts hold, at their offsets, the rows' own columns. */
  ghost predicate Holds<C>(parts: seq<seq<C>>, offs: seq<nat>, owns: seq<nat>, full: seq<C>, world: nat)
    requires Splits(|full|, world)
  {
    && |parts| == |offs| == |owns| == world
    && forall r: nat | r < world ::
         && owns[r] == Own(|full|, world, r) && offs[r] + owns[r] <= |parts[r]|
         && parts[r][offs[r]..offs[r] + owns[r]] == OwnColumns(full, world, r)
  }

  /** Dropping the padding and the neighbours' columns gives the row back. */
  lemma {:induction false} CatIsPrefix<C>(parts: seq<seq<C>>, offs: seq<nat>, owns: seq<nat>, full: seq<C>,
          world: nat, k: nat)
    requires Splits(|full|, world) && Holds(parts, offs, owns, full, world) && k <= world
    ensures Lo(|full|, world, k) <= |full| && Cat(parts, offs, owns, k) == full[..Lo(|full|, world, k)]
  {
    hide SumCounts, Own, Width;
    RangesPartition(|full|, world, 0);
    if k > 0 {
      CatIsPrefix(parts, offs, owns, full, world, k - 1);
      RangesPartition(|full|, world, k - 1);
      hide Lo;
      assert full[..Lo(|full|, world, k)]
             == full[..Lo(|full|, world, k - 1)] + full[Lo(|full|, world, k - 1)..Lo(|full|, world, k)];
    }
  }

  lemma CatIsWhole<C>(parts: seq<seq<C>>, offs: seq<nat>, owns: seq<nat>, full: seq<C>, world: nat)
    requires Splits(|full|, world) && Holds(parts, offs, owns, full, world)
    ensures Cat(parts, offs, owns, world) == full
  {
    CatIsPrefix(parts, offs, owns, full, world, world);
    RangesPartition(|full|, world, 0);
    assert full[..|full|] == full;
  }

  /* ---------------------------------------------------------- the forms of the gathered output */

  function Offs(f: Form, n: nat, world: nat): (o: seq<nat>)
    requires Splits(n, world)
  {
    seq(world, r requires 0 <= r < world => Off(f, n, world, r))
  }

  /** compact_layout: own widths and destination columns. */
  function Owns(n: nat, world: nat): (o: seq<nat>)
    requires world >= 1
  {
    seq(world, r requires 0 <= r < world => Own(n, world, r))
  }

  function Starts(n: nat, world: nat): (d: seq<nat>)
    requires world >= 1
  {
    seq(world, r requires 0 <= r < world => Lo(n, world, r))
  }

  /** pack_layout never refuses a split layer: every width and destination is whole 16-byte packs. */
  lemma WholePacks(n: nat, world: nat, r: nat, elementSize: nat)
    requires Splits(n, world) && r < world
    ensures (Own(n, world, r) * elementSize) % 16 == 0 && (Lo(n, world, r) * elementSize) % 16 == 0
  {
    var c, s := Count(Tiles(n), world, r), SumCounts(Tiles(n), world, r);
    assert Own(n, world, r) * elementSize == 16 * (c * 8 * elementSize);
    assert Lo(n, world, r) * elementSize == 16 * (s * 8 * elementSize);
  }

  /** Every rank's padded part of one row. */
  function Parts<C>(f: Form, full: seq<C>, world: nat, zero: C): (p: seq<seq<C>>)
    requires Splits(|full|, world)
    ensures |p| == world && Even(p, Width(|full|, world))
  {
    seq(world, r requires 0 <= r < world =>
      (LocalHolds(f, full, world, r); Padded(Local(f, full, world, r), Width(|full|, world), zero)))
  }

  lemma PartsHold<C>(f: Form, full: seq<C>, world: nat, zero: C)
    requires Splits(|full|, world)
    ensures Holds(Parts(f, full, world, zero), Offs(f, |full|, world), Owns(|full|, world), full, world)
  {
    hide Local, OwnColumns, Own, Off, Width, Splits;
    forall r: nat | r < world
      ensures
        var p, o, own := Parts(f, full, world, zero)[r], Off(f, |full|, world, r), Own(|full|, world, r);
        o + own <= |p| && p[o..o + own] == OwnColumns(full, world, r)
    {
      LocalHolds(f, full, world, r);
      var l, o, own := Local(f, full, world, r), Off(f, |full|, world, r), Own(|full|, world, r);
      var q := Padded(l, Width(|full|, world), zero);
      InPrefix(l, q, o, own);
    }
  }

  predicate AllEqual(owns: seq<nat>, width: nat) { forall r | 0 <= r < |owns| :: owns[r] == width }

  /** assemble() on one row gathered side by side. */
  function Assemble<C>(gathered: seq<C>, offs: seq<nat>, owns: seq<nat>, width: nat): seq<C>
    requires |offs| == |owns| && |gathered| == Mul(|owns|, width)
    requires forall r | 0 <= r < |owns| :: offs[r] + owns[r] <= width
  {
    if AllEqual(owns, width) then gathered
    else Cat(seq(|owns|, r requires 0 <= r < |owns| => Chunk(gathered, |owns|, width, r)), offs, owns, |owns|)
  }

  function Chunk<C>(gathered: seq<C>, world: nat, width: nat, r: nat): (c: seq<C>)
    requires r < world && |gathered| == Mul(world, width)
    ensures |c| == width
  {
    MulStep(r, world, width);
    gathered[Mul(r, width)..Mul(r, width) + width]
  }

  lemma ChunksBack<C>(parts: seq<seq<C>>, width: nat)
    requires Even(parts, width) && |parts| >= 1
    ensures |Concat(parts)| == Mul(|parts|, width)
    ensures seq(|parts|, r requires 0 <= r < |parts| => Chunk(Concat(parts), |parts|, width, r)) == parts
  {
    hide Mul;
    PartAt(parts, width, 0);
    var g := Concat(parts);
    forall r: nat | r < |parts| ensures Chunk(g, |parts|, width, r) == parts[r] { PartAt(parts, width, r); }
  }

  /** With no padding the gathered row is already in order. */
  lemma {:induction false} EvenIsCat<C>(parts: seq<seq<C>>, offs: seq<nat>, owns: seq<nat>, width: nat, k: nat)
    requires k <= |parts| == |offs| == |owns| && Even(parts, width) && AllEqual(owns, width)
    requires forall r | 0 <= r < |parts| :: offs[r] + owns[r] <= width
    ensures Cat(parts, offs, owns, k) == Concat(parts[..k])
  {
    if k > 0 {
      EvenIsCat(parts, offs, owns, width, k - 1);
      assert parts[..k][..k - 1] == parts[..k - 1];
      assert parts[k - 1][offs[k - 1]..offs[k - 1] + owns[k - 1]] == parts[k - 1];
    }
  }

  /** The padded gather and reorder give back the stock row, for exact slices and for windows. */
  lemma AssembleIsFull<C>(f: Form, full: seq<C>, world: nat, zero: C)
    requires Splits(|full|, world)
    ensures
      var parts, width := Parts(f, full, world, zero), Width(|full|, world);
      && |Concat(parts)| == Mul(world, width) && |Owns(|full|, world)| == |Offs(f, |full|, world)| == world
      && (forall r | 0 <= r < world :: Offs(f, |full|, world)[r] + Owns(|full|, world)[r] <= width)
      && Assemble(Concat(parts), Offs(f, |full|, world), Owns(|full|, world), width) == full
  {
    var parts := Parts(f, full, world, zero);
    var width := Width(|full|, world);
    var offs := Offs(f, |full|, world);
    var owns := Owns(|full|, world);
    hide Parts, Offs, Owns, Width, Mul, Splits, Own;
    PartsHold(f, full, world, zero);
    CatIsWhole(parts, offs, owns, full, world);
    ChunksBack(parts, width);
    assert forall r | 0 <= r < world :: offs[r] + owns[r] <= |parts[r]| == width;
    if AllEqual(owns, width) {
      EvenIsCat(parts, offs, owns, width, world);
      assert parts[..world] == parts;
    }
  }

  /** assemble_stacked(): one cat over the stacked parts of a row. */
  lemma StackedIsFull<C>(f: Form, full: seq<C>, world: nat, zero: C)
    requires Splits(|full|, world)
    ensures
      var parts, offs, owns := Parts(f, full, world, zero), Offs(f, |full|, world), Owns(|full|, world);
      && |offs| == |owns| == world && (forall r | 0 <= r < world :: offs[r] + owns[r] <= |parts[r]|)
      && Cat(parts, offs, owns, world) == full
  {
    var parts, offs, owns := Parts(f, full, world, zero), Offs(f, |full|, world), Owns(|full|, world);
    PartsHold(f, full, world, zero);
    CatIsWhole(parts, offs, owns, full, world);
    hide Parts, Offs, Owns, Width;
  }
}
