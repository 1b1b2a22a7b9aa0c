/** The planned tensors of a shard in name order, as slab_layout takes them (adapter/fast_load.py). */
module SlabPlan {
  import opened SlabLayout

  /** Python's string order. */
  predicate Precedes(a: string, b: string) {
    if b == [] then false
    else if a == [] then true
    else if a[0] != b[0] then a[0] < b[0]
    else Precedes(a[1..], b[1..])
  }

  lemma {:induction false} PrecedesTotal(a: string, b: string)
    ensures a == b || Precedes(a, b) || Precedes(b, a)
    ensures !(Precedes(a, b) && Precedes(b, a)) && !Precedes(a, a)
  {
    if a != [] && b != [] {
      PrecedesTotal(a[1..], b[1..]);
      assert a == [a[0]] + a[1..] && b == [b[0]] + b[1..];
    }
    if a != [] { PrecedesTotal(a[1..], a[1..]); }
  }

  lemma {:induction false} PrecedesTransitive(a: string, b: string, c: string)
    requires Precedes(a, b) && Precedes(b, c)
    ensures Precedes(a, c)
  {
    if a != [] && a[0] == b[0] == c[0] { PrecedesTransitive(a[1..], b[1..], c[1..]); }
  }

  predicate InOrder(es: seq<Entry>) { forall i, j | 0 <= i < j < |es| :: Precedes(es[i].name, es[j].name) }

  /** The names of a plan, a dictionary's keys, are distinct. */
  predicate Distinct(es: seq<Entry>) { forall i, j | 0 <= i < j < |es| :: es[i].name != es[j].name }

  /** One step of the sort. */
  function Inserted(es: seq<Entry>, e: Entry): (r: seq<Entry>)
    ensures multiset(r) == multiset(es) + multiset{e}
  {
    if es == [] || Precedes(e.name, es[0].name) then [e] + es
    else
      assert es == [es[0]] + es[1..];
      [es[0]] + Inserted(es[1..], e)
  }

  lemma {:induction false} InsertedInOrder(es: seq<Entry>, e: Entry)
    requires InOrder(es) && forall x | x in es :: x.name != e.name
    ensures InOrder(Inserted(es, e))
  {
    if es == [] { return; }
    PrecedesTotal(e.name, es[0].name);
    if Precedes(e.name, es[0].name) {
      forall x | x in es ensures Precedes(e.name, x.name) {
        if x != es[0] { PrecedesTransitive(e.name, es[0].name, x.name); }
      }
      InOrderCons(e, es);
    } else {
      var rest := Inserted(es[1..], e);
      InsertedInOrder(es[1..], e);
      forall x | x in rest ensures Precedes(es[0].name, x.name) {
        assert x in multiset(rest);
        assert x == e || x in es[1..];
      }
      InOrderCons(es[0], rest);
    }
  }

  lemma InOrderCons(e: Entry, es: seq<Entry>)
    requires InOrder(es) && forall x | x in es :: Precedes(e.name, x.name)
    ensures InOrder([e] + es)
  {
    var r := [e] + es;
    forall i, j | 0 <= i < j < |r| ensures Precedes(r[i].name, r[j].name) {
      assert r[j] == es[j - 1] && es[j - 1] in es;
      assert i > 0 ==> r[i] == es[i - 1];
    }
  }

  /** sorted(plan). */
  function Sorted(plan: seq<Entry>): (r: seq<Entry>)
    ensures multiset(r) == multiset(plan)
  {
    if plan == [] then []
    else
      assert plan == plan[..|plan| - 1] + [plan[|plan| - 1]];
      Inserted(Sorted(plan[..|plan| - 1]), plan[|plan| - 1])
  }

  lemma {:induction false} SortedInOrder(plan: seq<Entry>)
    requires Distinct(plan)
    ensures InOrder(Sorted(plan))
  {
    if plan != [] {
      var rest, e := plan[..|plan| - 1], plan[|plan| - 1];
      SortedInOrder(rest);
      forall x | x in Sorted(rest) ensures x.name != e.name {
        assert x in multiset(Sorted(rest)) && x in rest;
        var i :| 0 <= i < |rest| && rest[i] == x;
        assert plan[i] == x;
      }
      InsertedInOrder(Sorted(rest), e);
    }
  }

  /** What is not empty depends on the planned tensors alone, not on their order. */
  lemma {:induction false} NonEmptyCount(es: seq<Entry>, e: Entry)
    ensures NonEmpty(es)[e] == if e.kept > 0 then multiset(es)[e] else 0
  {
    if es != [] {
      NonEmptyCount(es[..|es| - 1], e);
      assert es == es[..|es| - 1] + [es[|es| - 1]];
    }
  }

  lemma NonEmptySame(a: seq<Entry>, b: seq<Entry>)
    requires multiset(a) == multiset(b)
    ensures NonEmpty(a) == NonEmpty(b)
  {
    hide NonEmpty;
    forall e: Entry ensures NonEmpty(a)[e] == NonEmpty(b)[e] {
      NonEmptyCount(a, e);
      NonEmptyCount(b, e);
    }
  }

  /** The small tensors of a plan in order are in order. */
  lemma {:induction false} SmallInOrder(es: seq<Entry>, slab: nat)
    requires InOrder(es)
    ensures InOrder(Small(es, slab))
    ensures forall x :: x in Small(es, slab) <==> x in es && 0 < x.kept <= slab
  {
    if es != [] {
      var n := |es| - 1;
      assert es == es[..n] + [es[n]];
      SmallInOrder(es[..n], slab);
    }
  }

  /** slab_layout: whatever order the plan has, each non-empty tensor is placed once, and the shared slabs
      hold exactly the tensors that fit, slab after slab in name order, so that they free as the loader goes. */
  method LayoutPlan(plan: seq<Entry>, slab: nat) returns (out: seq<Slab>)
    requires Distinct(plan)
    ensures forall i | 0 <= i < |out| :: Packed(out[i], slab)
    ensures PlacedIn(out) == NonEmpty(plan)
    ensures InOrder(SmallIn(out, slab))
    ensures forall x :: x in SmallIn(out, slab) <==> x in plan && 0 < x.kept <= slab
  {
    hide Packed, PlacedIn, NonEmpty, SmallIn, Small, Closed, PlaceAll, Sorted, Precedes;
    var entries := Sorted(plan);
    out := Layout(entries, slab);
    NonEmptySame(entries, plan);
    SortedInOrder(plan);
    LayoutInOrder(entries, slab);
    SmallInOrder(entries, slab);
    forall x ensures x in entries <==> x in plan {
      assert x in multiset(entries) <==> x in multiset(plan);
    }
  }
}
