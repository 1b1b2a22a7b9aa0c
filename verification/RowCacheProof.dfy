/** Under every interleaving, a finished lookup returns exactly the table's row. */
module RowCacheProof {
  import opened RowStore
  import opened RowShard
  import opened RowCache

  lemma InitInv(c: Config, n: nat)
    requires Good(c)
    ensures Inv(c, Init(c, n))
  {}

  /** Two holders of one stripe are the same thread. */
  lemma Exclusive(c: Config, s: State, i: nat, j: nat)
    requires Good(c) && Inv(c, s) && i < |s.threads| && j < |s.threads|
    requires Holding(s.threads[i].pc) && Holding(s.threads[j].pc)
    requires Stripe(SetOf(c, s.threads[i].id)) == Stripe(SetOf(c, s.threads[j].id))
    ensures i == j
  {
    assert ThreadOk(c, s, i) && ThreadOk(c, s, j);
  }

  ghost predicate Can(c: Config, s: State, a: Action) {
    Good(c) && Inv(c, s) && Enabled(c, s, a) && ThreadOk(c, s, a.i)
  }

  predicate Quiet(s: State, a: Action)
    requires a.i < |s.threads|
  {
    !a.Step? || !(s.threads[a.i].pc.Fill? || s.threads[a.i].pc.FillKey?)
  }

  lemma ShapeKept(c: Config, s: State, a: Action)
    requires Can(c, s, a)
    ensures Shape(c, Next(c, s, a))
  {
    hide Next, ThreadOk, SlotOk;
    if Quiet(s, a) { QuietEffect(c, s, a); } else { WriteShape(c, s, a); }
  }

  /** A step that writes no slot: keys, rows and other threads stay. */
  lemma QuietEffect(c: Config, s: State, a: Action)
    requires Can(c, s, a) && Quiet(s, a)
    ensures
      var n := Next(c, s, a);
      && n.keys == s.keys && n.cache == s.cache && |n.victim| == |s.victim| && |n.locks| == STRIPES
      && |n.threads| == |s.threads| && (forall j | 0 <= j < |s.threads| && j != a.i :: n.threads[j] == s.threads[j])
      && |n.threads[a.i].row| == ROW && c.lo <= n.threads[a.i].id < c.hi && (Holding(n.threads[a.i].pc) ==> c.sets > 0)
  {
    hide Row, SlotOk, SetOf, Stripe, Slice;
    var id := s.threads[a.i].id;
    if a.Step? && s.threads[a.i].pc.Miss? {
      if c.source.Packed? { SliceLength(c.source.file, HEADER + (id - c.lo) * ROW, ROW); }
    }
    if a.Step? && s.threads[a.i].pc.MissScale? {
      if c.source.Pinned? { SliceLength(c.source.scales, (id - c.lo) * SCALE, SCALE); }
      SliceLength(c.tb.file, c.tb.soff + id * SCALE, SCALE);
    }
  }

  /** It changes only its own stripe's lock, which was free or its own. */
  lemma QuietLocks(c: Config, s: State, a: Action, st: nat)
    requires Can(c, s, a) && Quiet(s, a) && st < STRIPES
    ensures
      var n, t := Next(c, s, a), s.threads[a.i];
      |n.locks| == STRIPES && (n.locks[st] != s.locks[st] ==>
        st == Stripe(SetOf(c, t.id)) && (s.locks[st].None? || Holding(t.pc)))
  {
    hide Row, SlotOk, SetOf, Stripe, Slice;
  }

  lemma SliceLength(b: seq<Byte>, at: nat, n: nat)
    ensures |Slice(b, at, n)| == n
  {}

  lemma WriteShape(c: Config, s: State, a: Action)
    requires Can(c, s, a) && a.Step? && (s.threads[a.i].pc.Fill? || s.threads[a.i].pc.FillKey?)
    ensures Shape(c, Next(c, s, a))
  {
    hide Row, SlotOk, SetOf, Stripe;
  }

  /** Another thread's facts survive: it shares no unlocked set with the one that moved. */
  lemma OtherKept(c: Config, s: State, a: Action, j: nat)
    requires Can(c, s, a) && Shape(c, Next(c, s, a)) && j < |s.threads| && j != a.i
    ensures ThreadOk(c, Next(c, s, a), j)
  {
    hide Next, ThreadOk, SlotOk;
    if Quiet(s, a) { OtherQuiet(c, s, a, j); } else { OtherWritten(c, s, a, j); }
  }

  lemma OtherWritten(c: Config, s: State, a: Action, j: nat)
    requires Can(c, s, a) && Shape(c, Next(c, s, a)) && j < |s.threads| && j != a.i && !Quiet(s, a)
    ensures ThreadOk(c, Next(c, s, a), j)
  {
    hide Row, SlotOk, Slice;
    assert ThreadOk(c, s, j);
    if Holding(s.threads[j].pc) && Stripe(SetOf(c, s.threads[a.i].id)) == Stripe(SetOf(c, s.threads[j].id)) {
      Exclusive(c, s, a.i, j);
    }
    hide SetOf, Stripe;
  }

  lemma OtherQuiet(c: Config, s: State, a: Action, j: nat)
    requires Can(c, s, a) && Shape(c, Next(c, s, a)) && j < |s.threads| && j != a.i && Quiet(s, a)
    ensures ThreadOk(c, Next(c, s, a), j)
  {
    hide Row, SlotOk, Slice, SetOf, Stripe, Next, Shape;
    QuietEffect(c, s, a);
    QuietLocks(c, s, a, Stripe(SetOf(c, s.threads[j].id)));
    assert ThreadOk(c, s, j) && ThreadOk(c, s, a.i);
  }

  lemma SelfKept(c: Config, s: State, a: Action)
    requires Can(c, s, a) && Shape(c, Next(c, s, a))
    ensures ThreadOk(c, Next(c, s, a), a.i)
  {
    var pc := s.threads[a.i].pc;
    if a.Step? && pc.CopyOut? {
      CopyOutKept(c, s, a);
    } else if a.Step? && (pc.Miss? || pc.MissScale?) {
      MissKept(c, s, a);
    } else if a.Step? && pc.Fill? {
      FillKept(c, s, a);
    } else {
      LockKept(c, s, a);
    }
    hide Next, ThreadOk, SlotOk;
  }

  lemma LockKept(c: Config, s: State, a: Action)
    requires Can(c, s, a) && Shape(c, Next(c, s, a))
    requires a.Step? ==> var pc := s.threads[a.i].pc; !(pc.CopyOut? || pc.Miss? || pc.MissScale? || pc.Fill?)
    ensures ThreadOk(c, Next(c, s, a), a.i)
  {
    hide Row, SlotOk, SetOf, Stripe, Slice;
  }

  lemma CopyOutKept(c: Config, s: State, a: Action)
    requires Can(c, s, a) && Shape(c, Next(c, s, a)) && a.Step? && s.threads[a.i].pc.CopyOut?
    ensures ThreadOk(c, Next(c, s, a), a.i)
  {
    hide Row;
    var t := s.threads[a.i];
    var k, w, n := SetOf(c, t.id), t.pc.w, t.pc.n;
    assert SlotOk(c, s, k, w) && !Dirty(c, s, k, w);
    var r := Row(c.tb, t.id);
    if n < ROW {
      var row' := t.row[n := s.cache[k][w][n]];
      assert row'[..n + 1] == t.row[..n] + [r[n]] == r[..n + 1];
    } else {
      assert t.row == t.row[..n] && r == r[..n];
    }
  }

  /** The read paths give the table's bytes. */
  lemma PackedIsRow(c: Config, id: nat)
    requires Good(c) && c.lo <= id < c.hi && c.source.Packed?
    ensures Slice(c.source.file, HEADER + (id - c.lo) * ROW, ROW) == Row(c.tb, id)
  {
    hide Row;
    assert RecordHolds(c.tb, c.source.file, c.lo, id - c.lo);
  }

  lemma WeightIsRow(c: Config, id: nat, row: seq<Byte>)
    requires Good(c) && c.lo <= id < c.hi && |row| == ROW
    ensures var at := c.tb.woff + id * WEIGHT;
            (c.tb.file[at..at + WEIGHT] + row[WEIGHT..])[..WEIGHT] == Row(c.tb, id)[..WEIGHT]
  {
    var at := c.tb.woff + id * WEIGHT;
    var w, r := c.tb.file[at..at + WEIGHT], Row(c.tb, id);
    assert (w + row[WEIGHT..])[..WEIGHT] == w;
    assert r[..WEIGHT] == w;
  }

  lemma ScaleIsRow(c: Config, id: nat, row: seq<Byte>)
    requires Good(c) && c.lo <= id < c.hi && |row| == ROW && row[..WEIGHT] == Row(c.tb, id)[..WEIGHT]
    ensures c.source.Pinned? ==>
              row[..WEIGHT] + Slice(c.source.scales, (id - c.lo) * SCALE, SCALE) == Row(c.tb, id)
    ensures c.source.Direct? ==>
              row[..WEIGHT] + Slice(c.tb.file, c.tb.soff + id * SCALE, SCALE) == Row(c.tb, id)
  {
    var r, w := Row(c.tb, id), c.tb.file[c.tb.woff + id * WEIGHT..c.tb.woff + id * WEIGHT + WEIGHT];
    assert r[..WEIGHT] == w;
    if c.source.Pinned? { ReadPaths(c.tb, id, c.lo, c.hi, c.source.scales); }
  }

  lemma MissKept(c: Config, s: State, a: Action)
    requires Can(c, s, a) && Shape(c, Next(c, s, a)) && a.Step?
    requires (s.threads[a.i].pc.Miss? || s.threads[a.i].pc.MissScale?)
    ensures ThreadOk(c, Next(c, s, a), a.i)
  {
    hide SlotOk, Row, Slice, SetOf, Stripe;
    var t := s.threads[a.i];
    if t.pc.MissScale? {
      ScaleIsRow(c, t.id, t.row);
    } else if c.source.Packed? {
      PackedIsRow(c, t.id);
    } else {
      WeightIsRow(c, t.id, t.row);
    }
  }

  lemma FillKept(c: Config, s: State, a: Action)
    requires Can(c, s, a) && Shape(c, Next(c, s, a)) && a.Step? && s.threads[a.i].pc.Fill?
    ensures ThreadOk(c, Next(c, s, a), a.i)
  {
    hide Row, SlotOk;
    var t := s.threads[a.i];
    var k, w, n := SetOf(c, t.id), t.pc.w, t.pc.n;
    if n < ROW {
      var slot := s.cache[k][w][n := t.row[n]];
      assert slot[..n + 1] == s.cache[k][w][..n] + [t.row[n]] == t.row[..n + 1];
    } else {
      assert s.cache[k][w] == s.cache[k][w][..n] && t.row == t.row[..n];
    }
  }

  lemma SlotKept(c: Config, s: State, a: Action, k: nat, w: nat)
    requires Can(c, s, a) && Shape(c, Next(c, s, a)) && k < c.sets && w < c.ways
    ensures SlotOk(c, Next(c, s, a), k, w)
  {
    assert SlotOk(c, s, k, w);
    hide Row, Stripe, Slice;
    var t := s.threads[a.i];
    if SetOf(c, t.id) == k && Holding(t.pc) {
      OwnSlotKept(c, s, a, k, w);
    } else {
      ForeignSlotKept(c, s, a, k, w);
    }
  }

  /** The stripe's holder, if it is another thread, did not move. */
  lemma ForeignSlotKept(c: Config, s: State, a: Action, k: nat, w: nat)
    requires Can(c, s, a) && Shape(c, Next(c, s, a)) && k < c.sets && w < c.ways && SlotOk(c, s, k, w)
    requires SetOf(c, s.threads[a.i].id) != k || !Holding(s.threads[a.i].pc)
    ensures SlotOk(c, Next(c, s, a), k, w)
  {
    hide Row, Stripe, SetOf, Slice;
    assert Dirty(c, s, k, w) ==> s.locks[Stripe(k)].value != a.i;
    assert Next(c, s, a).keys[k][w] == s.keys[k][w] && Next(c, s, a).cache[k][w] == s.cache[k][w];
  }

  /** A slot of the set whose lock the moving thread holds. */
  lemma OwnSlotKept(c: Config, s: State, a: Action, k: nat, w: nat)
    requires Can(c, s, a) && Shape(c, Next(c, s, a)) && k < c.sets && w < c.ways
    requires a.Step? ==> SetOf(c, s.threads[a.i].id) == k && Holding(s.threads[a.i].pc)
    requires a.Step? && SlotOk(c, s, k, w)
    ensures SlotOk(c, Next(c, s, a), k, w)
  {
    hide Row, Stripe, SetOf;
  }

  lemma NextKeeps(c: Config, s: State, a: Action)
    requires Can(c, s, a)
    ensures Inv(c, Next(c, s, a))
  {
    ShapeKept(c, s, a);
    var s' := Next(c, s, a);
    SelfKept(c, s, a);
    forall j: nat | j < |s'.threads| && j != a.i ensures ThreadOk(c, s', j) { OtherKept(c, s, a, j); }
    forall k: nat, w: nat | k < c.sets && w < c.ways ensures SlotOk(c, s', k, w) { SlotKept(c, s, a, k, w); }
    hide ThreadOk, SlotOk, Next;
  }

  /** acts is a schedule from s to s'. */
  ghost predicate Run(c: Config, s: State, acts: seq<Action>, s': State)
    requires Good(c)
    decreases |acts|
  {
    if acts == [] then s == s'
    else
      && Shape(c, s) && Enabled(c, s, acts[0]) && (acts[0].Step? ==> WaysOk(c, s, acts[0].i))
      && Run(c, Next(c, s, acts[0]), acts[1..], s')
  }

  lemma {:induction false} RunKeeps(c: Config, s: State, acts: seq<Action>, s': State)
    requires Good(c) && Inv(c, s) && Run(c, s, acts, s')
    ensures Inv(c, s')
    decreases |acts|
  {
    if acts != [] {
      assert Can(c, s, acts[0]);
      NextKeeps(c, s, acts[0]);
      hide Inv, Next;
      RunKeeps(c, Next(c, s, acts[0]), acts[1..], s');
    }
  }

  /** For every cache geometry, read path, number of threads and schedule of lookups, including
      concurrent misses on one id and sets that share a stripe: a lookup that is done has exactly
      the table's 264 bytes, and every key of the cache names an owned row of its own set. */
  lemma CacheRefines(c: Config, n: nat, acts: seq<Action>, s: State)
    requires Good(c) && Run(c, Init(c, n), acts, s)
    ensures Shape(c, s)
    ensures forall i: nat | i < |s.threads| && s.threads[i].pc.Done? :: s.threads[i].row == Row(c.tb, s.threads[i].id)
    ensures forall k: nat, w: nat | k < c.sets && w < c.ways && s.keys[k][w] > 0 ::
              c.lo <= s.keys[k][w] - 1 < c.hi && SetOf(c, s.keys[k][w] - 1) == k
  {
    InitInv(c, n);
    RunKeeps(c, Init(c, n), acts, s);
    hide Row;
    forall i: nat | i < |s.threads| && s.threads[i].pc.Done? ensures s.threads[i].row == Row(c.tb, s.threads[i].id) {
      assert ThreadOk(c, s, i);
    }
    forall k: nat, w: nat | k < c.sets && w < c.ways && s.keys[k][w] > 0
      ensures c.lo <= s.keys[k][w] - 1 < c.hi && SetOf(c, s.keys[k][w] - 1) == k
    {
      assert SlotOk(c, s, k, w);
    }
  }
}
