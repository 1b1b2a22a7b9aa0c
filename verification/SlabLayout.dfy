/** Slab packing of the fast loader (adapter/fast_load.py): a shard's tensors go into large pinned
    buffers, at 4 KiB offsets, in name order. */
module SlabLayout {
  import opened Options
  import opened IntMath

  const ALIGN: nat := 4096

  function Aligned(n: nat): (a: nat)
    ensures n <= a < n + ALIGN && a % ALIGN == 0
  {
    (n + ALIGN - 1) / ALIGN * ALIGN
  }

  /** A planned tensor and the bytes of it that stay resident. */
  datatype Entry = Entry(name: string, kept: nat)
  datatype Item = Item(name: string, off: nat, kept: nat)
  datatype Slab = Slab(size: nat, items: seq<Item>)

  /** What an item places. */
  function Placed(i: Item): Entry { Entry(i.name, i.kept) }

  function PlacedAll(items: seq<Item>): multiset<Entry> {
    if items == [] then multiset{} else PlacedAll(items[..|items| - 1]) + multiset{Placed(items[|items| - 1])}
  }

  function PlacedIn(slabs: seq<Slab>): multiset<Entry> {
    if slabs == [] then multiset{} else PlacedIn(slabs[..|slabs| - 1]) + PlacedAll(slabs[|slabs| - 1].items)
  }

  /** The entries with something to read. */
  function NonEmpty(es: seq<Entry>): multiset<Entry> {
    if es == [] then multiset{}
    else
      var e := es[|es| - 1];
      NonEmpty(es[..|es| - 1]) + if e.kept > 0 then multiset{e} else multiset{}
  }

  /** Aligned, non-empty, in order, apart, and all below `top`. */
  predicate Apart(items: seq<Item>, top: nat) {
    && (forall i | 0 <= i < |items| ::
          items[i].off % ALIGN == 0 && items[i].kept > 0 && items[i].off + items[i].kept <= top)
    && forall i, j | 0 <= i < j < |items| :: items[i].off + items[i].kept <= items[j].off
  }

  /** A finished slab: regions apart and inside it, and no larger than asked unless it is one big tensor. */
  predicate Packed(s: Slab, slab: nat) {
    && s.items != [] && Apart(s.items, s.size)
    && if |s.items| == 1 && s.items[0].kept > slab then s.size == s.items[0].kept else s.size <= Aligned(slab)
  }

  /** The slab being filled: every region also ends within the asked size. */
  predicate Filling(cur: seq<Item>, used: nat, slab: nat) {
    && used % ALIGN == 0 && used <= Aligned(slab) && Apart(cur, used) && (cur == [] ==> used == 0)
    && Apart(cur, slab) && forall i | 0 <= i < |cur| :: cur[i].kept <= slab
  }

  lemma ItemAdded(cur: seq<Item>, used: nat, slab: nat, e: Entry)
    requires Filling(cur, used, slab) && e.kept > 0 && used + e.kept <= slab
    ensures Filling(cur + [Item(e.name, used, e.kept)], Aligned(used + e.kept), slab)
    ensures PlacedAll(cur + [Item(e.name, used, e.kept)]) == PlacedAll(cur) + multiset{e}
  {
    hide Aligned;
    AlignedMono(used + e.kept, slab);
    assert (cur + [Item(e.name, used, e.kept)])[..|cur|] == cur;
  }

  /** A slab closed with the regions it was filled with, at its fill or at the asked size. */
  lemma SlabClosed(cur: seq<Item>, used: nat, slab: nat)
    requires Filling(cur, used, slab) && cur != []
    ensures Packed(Slab(used, cur), slab) && Packed(Slab(if used <= slab then used else slab, cur), slab)
  {}

  lemma BigSlab(e: Entry, slab: nat)
    requires e.kept > slab
    ensures Packed(Slab(e.kept, [Item(e.name, 0, e.kept)]), slab) && PlacedAll([Item(e.name, 0, e.kept)]) == multiset{e}
  {
    assert [Item(e.name, 0, e.kept)][..0] == [];
  }

  /** The packing so far: finished slabs and the one being filled. */
  datatype Packing = Packing(out: seq<Slab>, cur: seq<Item>, used: nat)

  ghost predicate Sound(p: Packing, slab: nat) {
    (forall i | 0 <= i < |p.out| :: Packed(p.out[i], slab)) && Filling(p.cur, p.used, slab)
  }

  ghost function Total(p: Packing): multiset<Entry> { PlacedIn(p.out) + PlacedAll(p.cur) }

  /** One iteration of the packing loop. */
  function Place(p: Packing, e: Entry, slab: nat): Packing {
    if e.kept == 0 then p
    else if e.kept > slab then p.(out := Append(p.out, Slab(e.kept, [Item(e.name, 0, e.kept)])))
    else
      var q := Cleared(p, e, slab);
      q.(cur := q.cur + [Item(e.name, q.used, e.kept)], used := Aligned(q.used + e.kept))
  }

  /** Closing the slab being filled before an entry that does not fit. */
  function Cleared(p: Packing, e: Entry, slab: nat): Packing {
    if p.cur != [] && p.used + e.kept > slab then Packing(Append(p.out, Slab(p.used, p.cur)), [], 0) else p
  }

  lemma ClearedKeeps(p: Packing, e: Entry, slab: nat)
    requires Sound(p, slab) && e.kept <= slab
    ensures Sound(Cleared(p, e, slab), slab) && Total(Cleared(p, e, slab)) == Total(p)
    ensures Cleared(p, e, slab).used + e.kept <= slab
  {
    hide Aligned, Packed, PlacedIn, PlacedAll;
    EmptyUnused(p, slab);
    if p.cur != [] { SlabClosed(p.cur, p.used, slab); }
    NonePlaced();
    NoneFilling(slab);
    hide Filling, Append;
  }

  lemma PlaceKeeps(p: Packing, e: Entry, slab: nat)
    requires Sound(p, slab)
    ensures Sound(Place(p, e, slab), slab)
    ensures Total(Place(p, e, slab)) == Total(p) + if e.kept > 0 then multiset{e} else multiset{}
  {
    hide Aligned, Packed, PlacedIn, PlacedAll, Filling, Append;
    if e.kept > slab {
      BigSlab(e, slab);
    } else if e.kept > 0 {
      ClearedKeeps(p, e, slab);
      var q := Cleared(p, e, slab);
      ItemAdded(q.cur, q.used, slab, e);
    }
  }

  lemma EmptyUnused(p: Packing, slab: nat)
    requires Sound(p, slab)
    ensures p.cur == [] ==> p.used == 0
  {}

  /** The packing after all entries. */
  function PlaceAll(entries: seq<Entry>, slab: nat): Packing {
    if entries == [] then Packing([], [], 0)
    else Place(PlaceAll(entries[..|entries| - 1], slab), entries[|entries| - 1], slab)
  }

  /** The slab being filled is closed at its fill, or at the asked size if that is less. */
  function Closed(p: Packing, slab: nat): seq<Slab> {
    if p.cur == [] then p.out else Append(p.out, Slab(if p.used <= slab then p.used else slab, p.cur))
  }

  /** slab_layout. */
  method Layout(entries: seq<Entry>, slab: nat) returns (out: seq<Slab>)
    ensures out == Closed(PlaceAll(entries, slab), slab)
    ensures forall i | 0 <= i < |out| :: Packed(out[i], slab)
    ensures PlacedIn(out) == NonEmpty(entries)
  {
    hide Place, Packed, NonEmpty, PlacedIn, Append;
    var p := Packing([], [], 0);
    var n := 0;
    while n < |entries|
      invariant n <= |entries| && p == PlaceAll(entries[..n], slab)
    {
      assert entries[..n + 1][..n] == entries[..n];
      p := Place(p, entries[n], slab);
      n := n + 1;
    }
    assert entries[..n] == entries;
    PlaceAllSound(entries, slab);
    CloseKeeps(p, slab);
    out := p.out;
    if p.cur != [] {
      out := Append(p.out, Slab(if p.used <= slab then p.used else slab, p.cur));
    }
  }

  lemma {:induction false} PlaceAllSound(entries: seq<Entry>, slab: nat)
    ensures Sound(PlaceAll(entries, slab), slab) && Total(PlaceAll(entries, slab)) == NonEmpty(entries)
  {
    hide Place, Packed, Filling;
    if entries == [] {
      NoneFilling(slab);
    } else {
      var n := |entries| - 1;
      PlaceAllSound(entries[..n], slab);
      PlaceKeeps(PlaceAll(entries[..n], slab), entries[n], slab);
      hide Total, Sound;
    }
  }

  lemma CloseKeeps(p: Packing, slab: nat)
    requires Sound(p, slab)
    ensures forall i | 0 <= i < |Closed(p, slab)| :: Packed(Closed(p, slab)[i], slab)
    ensures PlacedIn(Closed(p, slab)) == Total(p)
  {
    if p.cur != [] { SlabClosed(p.cur, p.used, slab); } else { NonePlaced(); }
    hide Packed, Filling, PlacedIn, PlacedAll;
  }

  /* -------------------------------------------------------------------------- name order */

  /** The tensors that share slabs, in order. */
  function Small(es: seq<Entry>, slab: nat): seq<Entry> {
    if es == [] then []
    else
      var e := es[|es| - 1];
      Small(es[..|es| - 1], slab) + if 0 < e.kept <= slab then [e] else []
  }

  function PlacedSeq(items: seq<Item>): (r: seq<Entry>)
    ensures |r| == |items|
  {
    seq(|items|, i requires 0 <= i < |items| => Placed(items[i]))
  }

  predicate Big(s: Slab, slab: nat) { |s.items| == 1 && s.items[0].kept > slab }

  /** The tensors of the shared slabs, slab after slab. */
  function SmallIn(slabs: seq<Slab>, slab: nat): seq<Entry> {
    if slabs == [] then []
    else
      var s := slabs[|slabs| - 1];
      SmallIn(slabs[..|slabs| - 1], slab) + if Big(s, slab) then [] else PlacedSeq(s.items)
  }

  lemma SmallAppend(out: seq<Slab>, s: Slab, slab: nat)
    ensures SmallIn(Append(out, s), slab) == SmallIn(out, slab) + if Big(s, slab) then [] else PlacedSeq(s.items)
  {
    assert Append(out, s)[..|out|] == out;
  }

  lemma PlaceInOrder(p: Packing, e: Entry, slab: nat)
    requires Sound(p, slab)
    ensures
      var q := Place(p, e, slab);
      SmallIn(q.out, slab) + PlacedSeq(q.cur)
      == SmallIn(p.out, slab) + PlacedSeq(p.cur) + if 0 < e.kept <= slab then [e] else []
  {
    hide Packed, Aligned, Filling, Append, Big, Sound, SmallIn, PlacedSeq;
    CurrentIsSmall(p, slab);
    var q := Place(p, e, slab);
    if e.kept > slab {
      BigIsBig(e, slab);
      SmallAppend(p.out, Slab(e.kept, [Item(e.name, 0, e.kept)]), slab);
    } else if e.kept > 0 {
      SmallAppend(p.out, Slab(p.used, p.cur), slab);
      PlacedSeqAppend([], e, 0);
      PlacedSeqAppend(p.cur, e, p.used);
    }
  }

  lemma CurrentIsSmall(p: Packing, slab: nat)
    requires Sound(p, slab)
    ensures p.cur != [] ==> !Big(Slab(p.used, p.cur), slab)
  {
    hide Packed;
  }

  lemma PlacedSeqAppend(items: seq<Item>, e: Entry, off: nat)
    ensures PlacedSeq(items + [Item(e.name, off, e.kept)]) == PlacedSeq(items) + [e]
    ensures PlacedSeq([]) == []
  {}

  lemma BigIsBig(e: Entry, slab: nat)
    requires e.kept > slab
    ensures Big(Slab(e.kept, [Item(e.name, 0, e.kept)]), slab)
  {}

  lemma {:induction false} PlaceAllInOrder(entries: seq<Entry>, slab: nat)
    ensures
      var p := PlaceAll(entries, slab);
      SmallIn(p.out, slab) + PlacedSeq(p.cur) == Small(entries, slab)
  {
    hide Place, Sound, SmallIn;
    if entries == [] {
      assert SmallIn([], slab) == [] by { NoSmall(slab); }
    } else {
      var n := |entries| - 1;
      PlaceAllInOrder(entries[..n], slab);
      PlaceAllSound(entries[..n], slab);
      PlaceInOrder(PlaceAll(entries[..n], slab), entries[n], slab);
    }
  }

  lemma NoSmall(slab: nat)
    ensures SmallIn([], slab) == []
  {}

  /** The shared slabs hold the small tensors in the order they were given. */
  lemma LayoutInOrder(entries: seq<Entry>, slab: nat)
    ensures SmallIn(Closed(PlaceAll(entries, slab), slab), slab) == Small(entries, slab)
  {
    var p := PlaceAll(entries, slab);
    PlaceAllInOrder(entries, slab);
    PlaceAllSound(entries, slab);
    hide PlaceAll, Packed, Append;
    if p.cur == [] {
      assert PlacedSeq(p.cur) == [];
    } else {
      SmallAppend(p.out, Slab(if p.used <= slab then p.used else slab, p.cur), slab);
    }
  }

  /* ------------------------------------------------------------------- no slab is closed early */

  /** The slabs that tensors share, in order. */
  function Shared(slabs: seq<Slab>, slab: nat): seq<Slab> {
    if slabs == [] then []
    else
      var s := slabs[|slabs| - 1];
      Shared(slabs[..|slabs| - 1], slab) + if Big(s, slab) then [] else [s]
  }

  lemma SharedAppend(out: seq<Slab>, s: Slab, slab: nat)
    ensures Shared(Append(out, s), slab) == Shared(out, slab) + if Big(s, slab) then [] else [s]
  {
    assert Append(out, s)[..|out|] == out;
  }

  /** The first tensor of each slab did not fit behind the fill of the one before. */
  predicate Tightly(ss: seq<Slab>, slab: nat) {
    forall i | 0 <= i < |ss| :: ss[i].items != [] && (i > 0 ==> ss[i - 1].size + ss[i].items[0].kept > slab)
  }

  /** The shared slabs, the one being filled included. */
  function Open(p: Packing, slab: nat): seq<Slab> {
    Shared(p.out, slab) + if p.cur == [] then [] else [Slab(p.used, p.cur)]
  }

  lemma TightlyNext(ss: seq<Slab>, a: Slab, b: Slab, slab: nat)
    requires Tightly(ss + [a], slab) && a.items != [] && b.items != []
    ensures b.items[0] == a.items[0] ==> Tightly(ss + [b], slab)
    ensures a.size + b.items[0].kept > slab ==> Tightly(ss + [a, b], slab)
  {
    var t, u, v := ss + [a], ss + [b], ss + [a, b];
    if b.items[0] == a.items[0] {
      forall i | 0 <= i < |u| ensures u[i].items != [] && (i > 0 ==> u[i - 1].size + u[i].items[0].kept > slab) {
        assert t[i].items != [] && (i > 0 ==> t[i - 1].size + t[i].items[0].kept > slab);
      }
    }
    if a.size + b.items[0].kept > slab {
      forall i | 0 <= i < |v| ensures v[i].items != [] && (i > 0 ==> v[i - 1].size + v[i].items[0].kept > slab) {
        if i <= |ss| { assert t[i].items != [] && (i > 0 ==> t[i - 1].size + t[i].items[0].kept > slab); }
      }
    }
  }

  lemma PlaceTightly(p: Packing, e: Entry, slab: nat)
    requires Sound(p, slab) && Tightly(Open(p, slab), slab) && (p.cur == [] ==> Shared(p.out, slab) == [])
    ensures Tightly(Open(Place(p, e, slab), slab), slab)
    ensures Place(p, e, slab).cur == [] ==> Shared(Place(p, e, slab).out, slab) == []
  {
    hide Packed, Aligned, Filling, Append, Big, Sound, Shared, Tightly;
    CurrentIsSmall(p, slab);
    var q, ss := Place(p, e, slab), Shared(p.out, slab);
    if e.kept > slab {
      BigIsBig(e, slab);
      SharedAppend(p.out, Slab(e.kept, [Item(e.name, 0, e.kept)]), slab);
      assert Open(q, slab) == Open(p, slab);
    } else if e.kept > 0 {
      SharedAppend(p.out, Slab(p.used, p.cur), slab);
      if p.cur == [] {
        assert Open(q, slab) == [Slab(q.used, q.cur)];
        TightlyOne(Slab(q.used, q.cur), slab);
      } else {
        TightlyNext(ss, Slab(p.used, p.cur), Slab(q.used, q.cur), slab);
        assert p.used + e.kept > slab ==> Open(q, slab) == ss + [Slab(p.used, p.cur), Slab(q.used, q.cur)];
        assert p.used + e.kept <= slab ==> Open(q, slab) == ss + [Slab(q.used, q.cur)] && q.cur[0] == p.cur[0];
      }
    }
  }

  lemma TightlyOne(s: Slab, slab: nat)
    ensures s.items != [] ==> Tightly([s], slab)
    ensures Tightly([], slab)
  {}

  lemma {:induction false} PlaceAllTightly(entries: seq<Entry>, slab: nat)
    ensures
      var p := PlaceAll(entries, slab);
      Tightly(Open(p, slab), slab) && (p.cur == [] ==> Shared(p.out, slab) == [])
  {
    hide Place, Packed, Filling, Sound, Tightly;
    if entries == [] {
      TightlyOne(Slab(0, []), slab);
      assert Open(Packing([], [], 0), slab) == [];
    } else {
      var n := |entries| - 1;
      PlaceAllTightly(entries[..n], slab);
      PlaceAllSound(entries[..n], slab);
      PlaceTightly(PlaceAll(entries[..n], slab), entries[n], slab);
    }
  }

  /** A slab is closed only when the next tensor that could share it does not fit behind it. */
  lemma ClosedWhenFull(entries: seq<Entry>, slab: nat)
    ensures
      var ss := Shared(Closed(PlaceAll(entries, slab), slab), slab);
      forall i | 0 <= i < |ss| :: ss[i].items != [] && (i > 0 ==> ss[i - 1].size + ss[i].items[0].kept > slab)
  {
    var p := PlaceAll(entries, slab);
    PlaceAllTightly(entries, slab);
    PlaceAllSound(entries, slab);
    hide PlaceAll;
    CloseTightly(p, slab);
  }

  lemma CloseTightly(p: Packing, slab: nat)
    requires Sound(p, slab) && Tightly(Open(p, slab), slab)
    ensures Tightly(Shared(Closed(p, slab), slab), slab)
  {
    hide Packed, Append, Sound, Shared, Tightly, Big, Aligned, Filling;
    CurrentIsSmall(p, slab);
    if p.cur == [] {
      assert Open(p, slab) == Shared(p.out, slab);
    } else {
      var last := Slab(if p.used <= slab then p.used else slab, p.cur);
      SameBig(last, Slab(p.used, p.cur), slab);
      SharedAppend(p.out, last, slab);
      TightlyNext(Shared(p.out, slab), Slab(p.used, p.cur), last, slab);
    }
  }

  lemma SameBig(a: Slab, b: Slab, slab: nat)
    requires a.items == b.items
    ensures Big(a, slab) == Big(b, slab)
  {}

  lemma NonePlaced()
    ensures PlacedAll([]) == multiset{}
  {}

  lemma NoneFilling(slab: nat)
    ensures Filling([], 0, slab)
  {}

  function Append(out: seq<Slab>, s: Slab): (r: seq<Slab>)
    ensures PlacedIn(r) == PlacedIn(out) + PlacedAll(s.items)
    ensures |r| == |out| + 1 && r[..|out|] == out && r[|out|] == s
  {
    assert (out + [s])[..|out|] == out;
    out + [s]
  }

  lemma AlignedMono(a: nat, b: nat)
    requires a <= b
    ensures Aligned(a) <= Aligned(b)
  {}

  /** Distinct planned names: each non-empty tensor has exactly one region, and nothing else has one. */
  lemma {:induction false} OneRegionEach(entries: seq<Entry>, e: Entry)
    requires forall i, j | 0 <= i < j < |entries| :: entries[i].name != entries[j].name
    ensures NonEmpty(entries)[e] == if e in entries && e.kept > 0 then 1 else 0
  {
    if entries != [] {
      var n := |entries| - 1;
      OneRegionEach(entries[..n], e);
      assert entries == entries[..n] + [entries[n]];
      if e == entries[n] { assert forall i | 0 <= i < n :: entries[..n][i].name != e.name; }
      assert e in entries <==> e in entries[..n] || e == entries[n];
    }
  }

  /* --------------------------------------------------------------------------- slab sizes */

  ghost predicate PowerOfTwo(n: nat) { exists k: nat :: Two(k) == n }

  function Two(k: nat): nat { if k == 0 then 1 else 2 * Two(k - 1) }

  /** 1 << (n.bit_length() - 1): the largest power of two not above n. */
  function Floor2(n: nat, p: nat): (q: nat)
    requires 1 <= p <= n
    ensures p <= q <= n < 2 * q && q % p == 0
    ensures PowerOfTwo(p) ==> PowerOfTwo(q)
    decreases n - p
  {
    if 2 * p > n then p
    else
      var q := Floor2(n, 2 * p);
      assert q % p == 0 by { HalfDivides(q, p); }
      assert PowerOfTwo(p) ==> PowerOfTwo(2 * p) by { Doubled(p); }
      q
  }

  lemma Doubled(p: nat)
    ensures PowerOfTwo(p) ==> PowerOfTwo(2 * p)
  {
    if PowerOfTwo(p) {
      var k: nat :| Two(k) == p;
      assert Two(k + 1) == 2 * p;
    }
  }

  lemma HalfDivides(q: nat, p: nat)
    requires p >= 1 && q % (2 * p) == 0
    ensures q % p == 0
  {
    var k := q / (2 * p);
    assert q == k * (2 * p) == (2 * k) * p;
    QuotientIs(q, p, 2 * k);
  }

  const MIB: nat := 0x10_0000

  /** The configured size in MiB; one that is missing or no number counts as 256. */
  function SlabMb(config: Option<real>): real { if config.Some? then config.value else 256.0 }

  /** slab_bytes: 0 or less means one buffer per tensor; any positive size, however small, gives a slab. */
  function SlabBytes(config: Option<real>): (n: nat)
    ensures SlabMb(config) <= 0.0 <==> n == 0
    ensures SlabMb(config) > 0.0 ==> n >= MIB && n % ALIGN == 0 && PowerOfTwo(n)
    ensures 0.0 < SlabMb(config) < 1.0 ==> n == MIB
    ensures config.None? ==> n == 256 * MIB
    ensures SlabMb(config) >= 1.0 ==> n as real <= SlabMb(config) * (MIB as real) < (2 * n) as real
  {
    var mb := SlabMb(config);
    if mb <= 0.0 then 0
    else
      var n := Floor2(Max(MIB, (mb * (MIB as real)).Floor), MIB);
      assert PowerOfTwo(n) by { MibIsPower(); }
      assert n % ALIGN == 0 by { MibAligned(n); }
      assert config.None? ==> n == 256 * MIB by { if config.None? { DefaultIs(n); } }
      n
  }

  lemma MibIsPower()
    ensures PowerOfTwo(MIB)
  {
    assert Two(10) == 1024;
    assert Two(20) == MIB;
  }

  /** The one power of two above half of 256 MiB and not above it. */
  lemma DefaultIs(n: nat)
    requires PowerOfTwo(n) && n <= 256 * MIB < 2 * n
    ensures n == 256 * MIB
  {
    var k: nat :| Two(k) == n;
    assert Two(28) == 256 * MIB by { assert Two(10) == 1024; assert Two(20) == MIB; }
    if k < 28 { TwoGrows(k + 1, 28); }
    if k > 28 { TwoGrows(29, k); }
  }

  lemma {:induction false} TwoGrows(a: nat, b: nat)
    requires a <= b
    ensures Two(a) <= Two(b)
  {
    if a < b { TwoGrows(a, b - 1); }
  }

  lemma MibAligned(n: nat)
    requires n % MIB == 0
    ensures n % ALIGN == 0
  {
    assert n == n / MIB * 256 * ALIGN;
  }

  /** At most `slab` bytes, or one tensor that is larger. */
  predicate Within(s: Slab, slab: nat) { s.size <= slab || Big(s, slab) }

  predicate AllWithin(out: seq<Slab>, slab: nat) { forall i | 0 <= i < |out| :: Within(out[i], slab) }

  /** A first tensor of exactly the slab size and any second one: the first is closed at its aligned fill. */
  function Tight(slab: nat): seq<Entry> { [Entry("a", slab), Entry("b", 1)] }

  lemma TightFirst(slab: nat)
    requires slab > 0
    ensures PlaceAll(Tight(slab)[..1], slab) == Packing([], [Item("a", 0, slab)], Aligned(slab))
  {
    hide Aligned;
    var es := Tight(slab)[..1];
    assert es[..0] == [] && PlaceAll([], slab) == Packing([], [], 0);
    assert es[0] == Entry("a", slab);
    assert PlaceAll(es, slab) == Place(Packing([], [], 0), es[0], slab);
    assert [] + [Item("a", 0, slab)] == [Item("a", 0, slab)];
  }

  lemma TightSecond(slab: nat)
    requires slab > 0
    ensures Place(Packing([], [Item("a", 0, slab)], Aligned(slab)), Entry("b", 1), slab).out
            == [Slab(Aligned(slab), [Item("a", 0, slab)])]
  {
    hide Aligned;
  }

  lemma TightOverflows(slab: nat)
    requires slab % ALIGN != 0
    ensures !AllWithin(Closed(PlaceAll(Tight(slab), slab), slab), slab)
  {
    hide Aligned, Place;
    assert Aligned(slab) > slab;
    TightFirst(slab);
    TightSecond(slab);
    var es := Tight(slab);
    var p := PlaceAll(es, slab);
    assert p == Place(PlaceAll(es[..1], slab), es[1], slab);
    hide PlaceAll;
    assert Closed(p, slab)[0] == p.out[0];
    assert !Within(p.out[0], slab);
  }

  /** The documented limit holds for every plan if and only if the slab size is a multiple of the alignment. */
  lemma LimitIff(slab: nat)
    ensures slab % ALIGN == 0 <==> forall entries: seq<Entry> :: AllWithin(Closed(PlaceAll(entries, slab), slab), slab)
  {
    if slab % ALIGN == 0 {
      forall entries: seq<Entry> ensures AllWithin(Closed(PlaceAll(entries, slab), slab), slab) {
        AlignedWithin(entries, slab);
      }
    } else {
      TightOverflows(slab);
    }
  }

  lemma AlignedWithin(entries: seq<Entry>, slab: nat)
    requires slab % ALIGN == 0
    ensures AllWithin(Closed(PlaceAll(entries, slab), slab), slab)
  {
    PlaceAllSound(entries, slab);
    CloseKeeps(PlaceAll(entries, slab), slab);
    var out := Closed(PlaceAll(entries, slab), slab);
    hide Closed, PlaceAll, Packed, Within;
    forall i | 0 <= i < |out| ensures Within(out[i], slab) { PackedWithin(out[i], slab); }
  }

  lemma PackedWithin(s: Slab, slab: nat)
    requires slab % ALIGN == 0 && Packed(s, slab)
    ensures Within(s, slab)
  {
    assert Aligned(slab) == slab;
  }

  /** And slab_bytes only gives such sizes. */
  lemma SlabBytesWithin(entries: seq<Entry>, config: Option<real>)
    ensures AllWithin(Closed(PlaceAll(entries, SlabBytes(config)), SlabBytes(config)), SlabBytes(config))
  {
    AlignedWithin(entries, SlabBytes(config));
  }
}
