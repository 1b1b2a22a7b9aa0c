/** Pacing of the weight copies (adapter/fast_load.py): a copy is admitted when its bytes fit the
    budget, when nothing is in flight, or when it reads a slab that is already charged. */
module Pacing {
  import opened Options

  /** A copy in flight: the slab it reads from, if any, and the bytes _charge gave. */
  datatype Copy = Copy(key: Option<nat>, size: nat)

  /** A charged slab: copies in flight from it, and the bytes charged once for all of them. */
  datatype Slab = Slab(key: nat, copies: int, bytes: nat)

  datatype State = State(inflight: int, held: seq<Slab>, copies: seq<Copy>)

  /** size = max(1, nbytes). */
  function Charge(key: Option<nat>, nbytes: nat): (c: Copy)
    ensures c.key == key && c.size >= 1 && (nbytes >= 1 ==> c.size == nbytes) && (nbytes == 0 ==> c.size == 1)
  {
    Copy(key, if nbytes < 1 then 1 else nbytes)
  }

  function Find(held: seq<Slab>, key: nat): (i: nat)
    ensures i <= |held| && (i < |held| ==> held[i].key == key)
    ensures i == |held| ==> forall j | 0 <= j < |held| :: held[j].key != key
  {
    if held == [] then 0 else if held[0].key == key then 0 else 1 + Find(held[1..], key)
  }

  predicate Held(s: State, c: Copy) { c.key.Some? && Find(s.held, c.key.value) < |s.held| }

  /** The loop condition of paced_submit is false. */
  predicate Admits(s: State, c: Copy, budget: nat) { Held(s, c) || s.inflight <= 0 || s.inflight + c.size <= budget }

  function Submit(s: State, c: Copy): State {
    if Held(s, c) then
      var i := Find(s.held, c.key.value);
      s.(held := s.held[i := s.held[i].(copies := s.held[i].copies + 1)], copies := s.copies + [c])
    else
      s.(inflight := s.inflight + c.size, copies := s.copies + [c],
         held := if c.key.Some? then s.held + [Slab(c.key.value, 1, c.size)] else s.held)
  }

  function Without<T>(q: seq<T>, i: nat): (r: seq<T>)
    requires i < |q|
    ensures |r| == |q| - 1
  {
    q[..i] + q[i + 1..]
  }

  /** The done-callback of copy j. */
  function Release(s: State, j: nat): State
    requires j < |s.copies|
  {
    var c := s.copies[j];
    var t := s.(copies := Without(s.copies, j));
    if c.key.None? then t.(inflight := s.inflight - c.size)
    else
      var i := Find(s.held, c.key.value);
      if i == |s.held| then t
      else if s.held[i].copies == 1 then t.(inflight := s.inflight - s.held[i].bytes, held := Without(s.held, i))
      else t.(held := s.held[i := s.held[i].(copies := s.held[i].copies - 1)])
  }

  /* ------------------------------------------------------------------------ the invariant */

  function Loose(cs: seq<Copy>): nat { if cs == [] then 0 else Loose(cs[..|cs| - 1]) + LooseBytes(cs[|cs| - 1]) }
  function LooseBytes(c: Copy): nat { if c.key.None? then c.size else 0 }

  function LooseCount(cs: seq<Copy>): nat {
    if cs == [] then 0 else LooseCount(cs[..|cs| - 1]) + if cs[|cs| - 1].key.None? then 1 else 0
  }

  function From(cs: seq<Copy>, key: nat): nat {
    if cs == [] then 0 else From(cs[..|cs| - 1], key) + if cs[|cs| - 1].key == Some(key) then 1 else 0
  }

  function Bytes(held: seq<Slab>): nat { if held == [] then 0 else Bytes(held[..|held| - 1]) + held[|held| - 1].bytes }

  /** Charges outstanding: one per unkeyed copy, one per held slab. */
  function Charges(s: State): nat { |s.held| + LooseCount(s.copies) }

  /** A slab is held exactly while copies from it are in flight, and counts them. */
  ghost predicate Counts(s: State) {
    && (forall i, j | 0 <= i < j < |s.held| :: s.held[i].key != s.held[j].key)
    && (forall i | 0 <= i < |s.held| :: s.held[i].bytes >= 1 && s.held[i].copies == From(s.copies, s.held[i].key) >= 1)
    && (forall j | 0 <= j < |s.copies| :: s.copies[j].size >= 1 && (s.copies[j].key.Some? ==> Held(s, s.copies[j])))
  }

  ghost predicate Inv(s: State, budget: nat) {
    && Counts(s)
    && s.inflight == Loose(s.copies) + Bytes(s.held)
    && (s.inflight <= budget || Charges(s) == 1)
  }

  lemma {:induction false} CopiesAppend(cs: seq<Copy>, c: Copy, key: nat)
    ensures Loose(cs + [c]) == Loose(cs) + LooseBytes(c)
    ensures LooseCount(cs + [c]) == LooseCount(cs) + if c.key.None? then 1 else 0
    ensures From(cs + [c], key) == From(cs, key) + if c.key == Some(key) then 1 else 0
  {
    assert (cs + [c])[..|cs|] == cs;
  }

  lemma {:induction false} CopiesRemove(cs: seq<Copy>, j: nat, key: nat)
    requires j < |cs|
    ensures Loose(Without(cs, j)) == Loose(cs) - LooseBytes(cs[j])
    ensures LooseCount(Without(cs, j)) == LooseCount(cs) - if cs[j].key.None? then 1 else 0
    ensures From(Without(cs, j), key) == From(cs, key) - if cs[j].key == Some(key) then 1 else 0
  {
    var n := |cs| - 1;
    if j == n {
      assert Without(cs, j) == cs[..n];
    } else {
      CopiesRemove(cs[..n], j, key);
      assert Without(cs, j) == Without(cs[..n], j) + [cs[n]];
      CopiesAppend(Without(cs[..n], j), cs[n], key);
    }
  }

  lemma {:induction false} BytesRemove(held: seq<Slab>, i: nat)
    requires i < |held|
    ensures Bytes(Without(held, i)) == Bytes(held) - held[i].bytes
  {
    var n := |held| - 1;
    if i == n {
      assert Without(held, i) == held[..n];
    } else {
      BytesRemove(held[..n], i);
      assert Without(held, i) == Without(held[..n], i) + [held[n]];
      assert (Without(held[..n], i) + [held[n]])[..n - 1] == Without(held[..n], i);
    }
  }

  lemma {:induction false} BytesSame(held: seq<Slab>, i: nat, s: Slab)
    requires i < |held| && s.bytes == held[i].bytes
    ensures Bytes(held[i := s]) == Bytes(held)
  {
    var n := |held| - 1;
    if i < n {
      BytesSame(held[..n], i, s);
      assert held[i := s][..n] == held[..n][i := s];
    } else {
      assert held[i := s][..n] == held[..n];
    }
  }

  ghost predicate Named(held: seq<Slab>, key: nat) { exists i :: 0 <= i < |held| && held[i].key == key }

  lemma HeldIsNamed(s: State, c: Copy)
    ensures Held(s, c) <==> c.key.Some? && Named(s.held, c.key.value)
  {
    if c.key.Some? {
      var i := Find(s.held, c.key.value);
      assert i < |s.held| ==> s.held[i].key == c.key.value;
    }
  }

  /** Copies name held slabs still when the slabs' names stay and a copy of a held slab is added. */
  lemma NamesStay(s: State, t: State, j: nat)
    requires |s.held| <= |t.held| && (forall k | 0 <= k < |s.held| :: t.held[k].key == s.held[k].key)
    requires j < |t.copies| && Held(s, t.copies[j])
    ensures Held(t, t.copies[j])
  {
    hide Find;
    HeldIsNamed(s, t.copies[j]);
    HeldIsNamed(t, t.copies[j]);
    var k :| 0 <= k < |s.held| && s.held[k].key == t.copies[j].key.value;
    assert t.held[k].key == s.held[k].key;
  }

  lemma SubmitHeldCounts(s: State, c: Copy)
    requires Counts(s) && c.size >= 1 && Held(s, c)
    ensures Counts(Submit(s, c))
  {
    hide From, Find;
    var t, i := Submit(s, c), Find(s.held, c.key.value);
    forall k | 0 <= k < |t.held| ensures t.held[k].copies == From(t.copies, t.held[k].key) >= 1 {
      CopiesAppend(s.copies, c, t.held[k].key);
      if k != i { assert s.held[k].key != s.held[i].key; }
    }
    forall j | 0 <= j < |t.copies| && t.copies[j].key.Some? ensures Held(t, t.copies[j]) {
      assert Held(s, t.copies[j]);
      NamesStay(s, t, j);
    }
  }

  /** No copy is counted for a slab that is not held. */
  lemma {:induction false} FromNone(s: State, cs: seq<Copy>, key: nat)
    requires !Named(s.held, key) && forall j | 0 <= j < |cs| && cs[j].key.Some? :: Held(s, cs[j])
    ensures From(cs, key) == 0
  {
    if cs != [] {
      FromNone(s, cs[..|cs| - 1], key);
      HeldIsNamed(s, cs[|cs| - 1]);
    }
  }

  /** A new charge: the copies from each slab. */
  lemma FreshFrom(s: State, c: Copy, k: nat)
    requires Counts(s) && c.size >= 1 && !Held(s, c) && k < |Submit(s, c).held|
    ensures var t := Submit(s, c); t.held[k].copies == From(t.copies, t.held[k].key) >= 1 && t.held[k].bytes >= 1
  {
    var t := Submit(s, c);
    HeldIsNamed(s, c);
    CopiesAppend(s.copies, c, t.held[k].key);
    if k < |s.held| {
      assert t.held[k] == s.held[k];
      assert c.key.Some? ==> c.key.value != s.held[k].key;
    } else {
      FromNone(s, s.copies, c.key.value);
    }
    hide From, Find;
  }

  lemma SubmitFreshCounts(s: State, c: Copy)
    requires Counts(s) && c.size >= 1 && !Held(s, c)
    ensures Counts(Submit(s, c))
  {
    hide From, Find;
    var t := Submit(s, c);
    HeldIsNamed(s, c);
    forall k | 0 <= k < |t.held|
      ensures t.held[k].copies == From(t.copies, t.held[k].key) >= 1 && t.held[k].bytes >= 1
    {
      FreshFrom(s, c, k);
    }
    forall j | 0 <= j < |t.copies| && t.copies[j].key.Some? ensures Held(t, t.copies[j]) {
      if j < |s.copies| {
        assert Held(s, t.copies[j]);
        NamesStay(s, t, j);
      } else {
        HeldIsNamed(t, t.copies[j]);
        assert t.held[|s.held|].key == c.key.value;
      }
    }
  }

  lemma {:induction false} LooseNone(cs: seq<Copy>)
    ensures LooseCount(cs) == 0 ==> Loose(cs) == 0
    ensures (forall j | 0 <= j < |cs| :: cs[j].size >= 1) ==> Loose(cs) >= LooseCount(cs)
  {
    if cs != [] { LooseNone(cs[..|cs| - 1]); }
  }

  lemma {:induction false} BytesCover(held: seq<Slab>)
    requires forall i | 0 <= i < |held| :: held[i].bytes >= 1
    ensures Bytes(held) >= |held|
  {
    if held != [] { BytesCover(held[..|held| - 1]); }
  }

  lemma {:induction false} AllKeyed(cs: seq<Copy>)
    requires LooseCount(cs) == 0
    ensures forall j | 0 <= j < |cs| :: cs[j].key.Some?
  {
    if cs != [] { AllKeyed(cs[..|cs| - 1]); }
  }

  /** Nothing in flight means nothing charged. */
  lemma ZeroIsIdle(s: State, budget: nat)
    requires Inv(s, budget) && s.inflight <= 0
    ensures s.held == [] && s.copies == [] && s.inflight == 0
  {
    LooseNone(s.copies);
    BytesCover(s.held);
    AllKeyed(s.copies);
  }

  lemma SubmitHeldKeeps(s: State, c: Copy, budget: nat)
    requires Inv(s, budget) && c.size >= 1 && Held(s, c)
    ensures Inv(Submit(s, c), budget)
  {
    hide Counts, Find, From, Loose, LooseCount, Bytes;
    SubmitHeldCounts(s, c);
    var i := Find(s.held, c.key.value);
    CopiesAppend(s.copies, c, 0);
    BytesSame(s.held, i, s.held[i].(copies := s.held[i].copies + 1));
  }

  lemma SubmitKeeps(s: State, c: Copy, budget: nat)
    requires Inv(s, budget) && c.size >= 1 && Admits(s, c, budget)
    ensures Inv(Submit(s, c), budget)
  {
    hide Counts, Find, From;
    if Held(s, c) { SubmitHeldKeeps(s, c, budget); } else { SubmitFreshKeeps(s, c, budget); }
  }

  lemma SubmitFreshKeeps(s: State, c: Copy, budget: nat)
    requires Inv(s, budget) && c.size >= 1 && !Held(s, c) && (s.inflight <= 0 || s.inflight + c.size <= budget)
    ensures Inv(Submit(s, c), budget)
  {
    hide Counts, Held, Find, From;
    SubmitFreshCounts(s, c);
    if s.inflight <= 0 { ZeroIsIdle(s, budget); }
    CopiesAppend(s.copies, c, 0);
    BytesAppend(s.held, Slab(if c.key.Some? then c.key.value else 0, 1, c.size));
    hide Loose, Bytes;
  }

  lemma BytesAppend(held: seq<Slab>, s: Slab)
    ensures Bytes(held + [s]) == Bytes(held) + s.bytes
  {
    assert (held + [s])[..|held|] == held;
  }

  lemma ReleaseCounts(s: State, j: nat)
    requires Counts(s) && j < |s.copies|
    ensures Counts(Release(s, j))
  {
    var t, c := Release(s, j), s.copies[j];
    ReleaseFrom(s, j);
    assert c.key.Some? ==> Held(s, c);
    hide From, Find;
    var i := if c.key.Some? then Find(s.held, c.key.value) else |s.held|;
    if i < |s.held| && s.held[i].copies == 1 {
      forall k | 0 <= k < |s.held| ensures s.held[k].key == c.key.value <==> k == i { SameKey(s, k, i); }
      hide Counts;
      DropCounts(s, t, i);
    } else {
      forall k | 0 <= k < |s.held| && c.key.Some? ensures s.held[k].key == c.key.value <==> k == i { SameKey(s, k, i); }
      KeepCounts(s, t);
    }
  }

  lemma SameKey(s: State, k: nat, i: nat)
    requires Counts(s) && k < |s.held| && i < |s.held|
    ensures s.held[k].key == s.held[i].key <==> k == i
  {}

  /** What the remaining copies still count for each slab. */
  lemma ReleaseFrom(s: State, j: nat)
    requires Counts(s) && j < |s.copies|
    ensures
      var cs := Without(s.copies, j);
      && (forall k | 0 <= k < |cs| :: cs[k] in s.copies)
      && forall k | 0 <= k < |s.held| ::
           From(cs, s.held[k].key) == s.held[k].copies - if s.copies[j].key == Some(s.held[k].key) then 1 else 0
  {
    var cs := Without(s.copies, j);
    assert forall k | 0 <= k < |cs| :: cs[k] == s.copies[if k < j then k else k + 1];
    forall k | 0 <= k < |s.held|
      ensures From(cs, s.held[k].key) == s.held[k].copies - if s.copies[j].key == Some(s.held[k].key) then 1 else 0
    {
      CopiesRemove(s.copies, j, s.held[k].key);
    }
  }

  /** The same slabs stay held, each with at least one copy left. */
  lemma KeepCounts(s: State, t: State)
    requires Counts(s) && |t.held| == |s.held|
    requires forall k | 0 <= k < |t.held| :: t.held[k].key == s.held[k].key && t.held[k].bytes == s.held[k].bytes
    requires forall k | 0 <= k < |t.held| :: t.held[k].copies == From(t.copies, t.held[k].key) >= 1
    requires forall k | 0 <= k < |t.copies| :: t.copies[k] in s.copies
    ensures Counts(t)
  {
    hide From, Find;
    forall k | 0 <= k < |t.copies| && t.copies[k].key.Some? ensures Held(t, t.copies[k]) {
      HeldIsNamed(s, t.copies[k]);
      HeldIsNamed(t, t.copies[k]);
      var m :| 0 <= m < |s.held| && s.held[m].key == t.copies[k].key.value;
      assert t.held[m].key == s.held[m].key;
    }
  }

  /** The slab whose last copy ended is dropped, and no other copy names it. */
  lemma DropCounts(s: State, t: State, i: nat)
    requires Counts(s) && i < |s.held| && t.held == Without(s.held, i)
    requires forall k | 0 <= k < |t.copies| :: t.copies[k] in s.copies
    requires forall k | 0 <= k < |s.held| :: From(t.copies, s.held[k].key) == s.held[k].copies - if k == i then 1 else 0
    requires s.held[i].copies == 1
    ensures Counts(t)
  {
    hide From, Find;
    assert forall k | 0 <= k < |t.held| :: t.held[k] == s.held[if k < i then k else k + 1];
    forall k | 0 <= k < |t.copies| && t.copies[k].key.Some? ensures Held(t, t.copies[k]) { DropNames(s, t, i, k); }
  }

  lemma DropNames(s: State, t: State, i: nat, k: nat)
    requires Counts(s) && i < |s.held| && t.held == Without(s.held, i) && From(t.copies, s.held[i].key) == 0
    requires k < |t.copies| && t.copies[k].key.Some? && t.copies[k] in s.copies
    ensures Held(t, t.copies[k])
  {
    hide Find;
    var c := t.copies[k];
    HeldIsNamed(s, c);
    HeldIsNamed(t, c);
    var m :| 0 <= m < |s.held| && s.held[m].key == c.key.value;
    if m == i { FromSome(t.copies, k, c.key.value); }
    hide From, Counts;
    assert t.held[if m < i then m else m - 1] == s.held[m];
  }

  lemma {:induction false} FromSome(cs: seq<Copy>, k: nat, key: nat)
    requires k < |cs| && cs[k].key == Some(key)
    ensures From(cs, key) >= 1
  {
    if k < |cs| - 1 { FromSome(cs[..|cs| - 1], k, key); }
  }

  lemma ReleaseKeeps(s: State, j: nat, budget: nat)
    requires Inv(s, budget) && j < |s.copies|
    ensures Inv(Release(s, j), budget)
  {
    var t, c := Release(s, j), s.copies[j];
    ReleaseCounts(s, j);
    CopiesRemove(s.copies, j, 0);
    if c.key.Some? {
      var i := Find(s.held, c.key.value);
      assert Held(s, c);
      if s.held[i].copies == 1 { BytesRemove(s.held, i); } else { BytesSame(s.held, i, t.held[i]); }
    }
    IdleIsZero(t);
  }

  lemma IdleIsZero(t: State)
    ensures t.inflight == Loose(t.copies) + Bytes(t.held) && Charges(t) == 0 ==> t.inflight == 0
  {
    LooseNone(t.copies);
  }

  /* ------------------------------------------------------------------------------ every run */

  datatype Action = Start(key: Option<nat>, nbytes: nat) | Finish(j: nat)

  predicate Enabled(s: State, a: Action, budget: nat) {
    match a
    case Start(key, nbytes) => Admits(s, Charge(key, nbytes), budget)
    case Finish(j) => j < |s.copies|
  }

  function Next(s: State, a: Action, budget: nat): State
    requires Enabled(s, a, budget)
  {
    match a
    case Start(key, nbytes) => Submit(s, Charge(key, nbytes))
    case Finish(j) => Release(s, j)
  }

  ghost predicate Run(s: State, acts: seq<Action>, budget: nat, s': State)
    decreases |acts|
  {
    if acts == [] then s' == s
    else Enabled(s, acts[0], budget) && Run(Next(s, acts[0], budget), acts[1..], budget, s')
  }

  lemma {:induction false} RunKeeps(s: State, acts: seq<Action>, budget: nat, s': State)
    requires Inv(s, budget) && Run(s, acts, budget, s')
    ensures Inv(s', budget)
    decreases |acts|
  {
    hide Inv, Submit, Release;
    if acts != [] {
      match acts[0] {
        case Start(key, nbytes) => SubmitKeeps(s, Charge(key, nbytes), budget);
        case Finish(j) => ReleaseKeeps(s, j, budget);
      }
      RunKeeps(Next(s, acts[0], budget), acts[1..], budget, s');
    }
  }

  /** Over every interleaving of submits and completions: the bytes in flight are the charges, within
      the budget unless one charge is alone; they are zero exactly when nothing runs, and then every
      submit is admitted. */
  lemma PacingHolds(acts: seq<Action>, budget: nat, s: State)
    requires Run(State(0, [], []), acts, budget, s)
    ensures s.inflight == Loose(s.copies) + Bytes(s.held)
    ensures s.inflight <= budget || Charges(s) == 1
    ensures s.inflight == 0 <==> s.copies == []
    ensures s.copies == [] ==> s.held == []
    ensures forall c: Copy :: s.inflight == 0 ==> Admits(s, c, budget)
    ensures forall c: Copy :: !Admits(s, c, budget) ==> s.copies != []
  {
    assert Inv(State(0, [], []), budget);
    RunKeeps(State(0, [], []), acts, budget, s);
    IdleHeld(s);
    IdleIsZero(s);
    if s.inflight <= 0 { ZeroIsIdle(s, budget); }
  }

  /** Every slab is charged at its own size. */
  ghost predicate Sized(s: State, size: nat -> nat) {
    && (forall i | 0 <= i < |s.held| :: s.held[i].bytes == size(s.held[i].key))
    && forall j | 0 <= j < |s.copies| && s.copies[j].key.Some? :: s.copies[j].size == size(s.copies[j].key.value)
  }

  /** What the copies of a run that read slabs are given as bytes. */
  predicate SlabSizes(acts: seq<Action>, size: nat -> nat) {
    forall i | 0 <= i < |acts| && acts[i].Start? && acts[i].key.Some? ::
      Charge(acts[i].key, acts[i].nbytes).size == size(acts[i].key.value)
  }

  lemma {:induction false} SizedRun(s: State, acts: seq<Action>, budget: nat, s': State, size: nat -> nat)
    requires Run(s, acts, budget, s') && Sized(s, size) && SlabSizes(acts, size)
    ensures Sized(s', size)
    decreases |acts|
  {
    if acts != [] {
      SizedNext(s, acts[0], budget, size);
      assert acts[0] == acts[..1][0];
      forall i | 0 <= i < |acts[1..]| ensures acts[1..][i] == acts[i + 1] {}
      SizedRun(Next(s, acts[0], budget), acts[1..], budget, s', size);
    }
  }

  /** If every copy of a slab is given the slab's size, what is in flight is the unkeyed bytes plus the size of each
      slab that a copy still reads, counted once. */
  lemma SlabsChargedOnce(acts: seq<Action>, budget: nat, s: State, size: nat -> nat)
    requires Run(State(0, [], []), acts, budget, s) && SlabSizes(acts, size)
    ensures s.inflight == Loose(s.copies) + Bytes(s.held)
    ensures forall i | 0 <= i < |s.held| :: s.held[i].bytes == size(s.held[i].key)
    ensures forall i, j | 0 <= i < j < |s.held| :: s.held[i].key != s.held[j].key
    ensures forall key: nat :: (exists i :: 0 <= i < |s.held| && s.held[i].key == key)
                          <==> (exists j :: 0 <= j < |s.copies| && s.copies[j].key == Some(key))
  {
    RunKeeps(State(0, [], []), acts, budget, s);
    SizedRun(State(0, [], []), acts, budget, s, size);
    forall key: nat ensures (exists i :: 0 <= i < |s.held| && s.held[i].key == key)
                       <==> (exists j :: 0 <= j < |s.copies| && s.copies[j].key == Some(key))
    {
      if i :| 0 <= i < |s.held| && s.held[i].key == key { KeyPresent(s.copies, key); }
      if j :| 0 <= j < |s.copies| && s.copies[j].key == Some(key) {
        assert Held(s, s.copies[j]);
        assert s.held[Find(s.held, key)].key == key;
      }
    }
  }

  lemma {:induction false} KeyPresent(cs: seq<Copy>, key: nat)
    ensures From(cs, key) >= 1 ==> exists j :: 0 <= j < |cs| && cs[j].key == Some(key)
  {
    if cs != [] {
      KeyPresent(cs[..|cs| - 1], key);
      if From(cs[..|cs| - 1], key) >= 1 {
        var j :| 0 <= j < |cs| - 1 && cs[..|cs| - 1][j].key == Some(key);
        assert cs[j].key == Some(key);
      } else if From(cs, key) >= 1 {
        assert cs[|cs| - 1].key == Some(key);
      }
    }
  }

  lemma SizedNext(s: State, a: Action, budget: nat, size: nat -> nat)
    requires Enabled(s, a, budget) && Sized(s, size)
    requires a.Start? && a.key.Some? ==> Charge(a.key, a.nbytes).size == size(a.key.value)
    ensures Sized(Next(s, a, budget), size)
  {}

  lemma IdleHeld(s: State)
    requires Counts(s)
    ensures s.held != [] ==> s.copies != []
  {
    if s.held != [] { assert From(s.copies, s.held[0].key) >= 1; }
  }

  /* ------------------------------------------------------------------- the shared counters */

  /** inflight and held, written under one condition variable; `copies` is what is still running. */
  class Pacer {
    const budget: nat
    var inflight: int
    var held: seq<Slab>
    ghost var copies: seq<Copy>

    ghost function Value(): State
      reads this
    {
      State(inflight, held, copies)
    }

    constructor (budget: nat)
      ensures this.budget == budget && Value() == State(0, [], []) && Inv(Value(), budget)
    {
      this.budget, inflight, held, copies := budget, 0, [], [];
    }

    /** paced_submit, woken: admits the copy and charges it, or goes back to waiting. */
    method Admit(key: Option<nat>, nbytes: nat) returns (admitted: bool)
      requires Inv(Value(), budget)
      modifies this
      ensures Inv(Value(), budget)
      ensures admitted <==>
                || (key.Some? && exists i :: 0 <= i < |old(held)| && old(held)[i].key == key.value)
                || old(inflight) <= 0
                || old(inflight) + (if nbytes < 1 then 1 else nbytes) <= budget
      ensures admitted && key.Some? && (exists i :: 0 <= i < |old(held)| && old(held)[i].key == key.value) ==>
                inflight == old(inflight)
      ensures admitted && !(key.Some? && exists i :: 0 <= i < |old(held)| && old(held)[i].key == key.value) ==>
                inflight == old(inflight) + (if nbytes < 1 then 1 else nbytes)
      ensures Value() == if admitted then Submit(old(Value()), Charge(key, nbytes)) else old(Value())
    {
      hide Inv;
      var c := Charge(key, nbytes);
      var i := if key.Some? then Find(held, key.value) else |held|;
      admitted := i < |held| || inflight <= 0 || inflight + c.size <= budget;
      if !admitted { return; }
      SubmitKeeps(Value(), c, budget);
      if i < |held| {
        held := held[i := held[i].(copies := held[i].copies + 1)];
      } else {
        inflight := inflight + c.size;
        if key.Some? { held := held + [Slab(key.value, 1, c.size)]; }
      }
      copies := copies + [c];
    }

    /** release(): copy j, with this key and size, has ended. */
    method Done(key: Option<nat>, size: nat, ghost j: nat)
      requires Inv(Value(), budget) && j < |copies| && copies[j] == Copy(key, size)
      modifies this
      ensures Inv(Value(), budget) && Value() == Release(old(Value()), j)
    {
      hide Inv;
      ReleaseKeeps(Value(), j, budget);
      CopyHeld(Value(), j, budget);
      if key.None? {
        inflight := inflight - size;
      } else {
        var i := Find(held, key.value);
        var h := held[i].copies - 1;
        if h == 0 {
          inflight := inflight - held[i].bytes;
          held := Without(held, i);
        } else {
          held := held[i := held[i].(copies := h)];
        }
      }
      copies := Without(copies, j);
    }
  }

  lemma CopyHeld(s: State, j: nat, budget: nat)
    requires Inv(s, budget) && j < |s.copies|
    ensures s.copies[j].key.Some? ==> Held(s, s.copies[j])
  {}
}
