/** Concurrent lookups through the set-associative row cache of adapter/row_store.cpp.

    Any number of threads run fetch_row at once.  A lock stripe is held over several steps, memcpy
    moves one byte per step, and disk reads happen outside the lock.  keys[k][w] stands for
    keys[k * ways + w], and likewise for the cached rows (SlotsAreDistinct). */
module RowCache {
  import opened Options
  import opened IntMath
  import opened RowStore
  import opened RowShard

  const STRIPES: nat := 256

  datatype Source = Packed(file: seq<Byte>) | Pinned(scales: seq<Byte>) | Direct

  datatype Config = Config(tb: Table, lo: nat, hi: nat, sets: nat, ways: nat, source: Source)

  /** What RowShard.Store.Valid and row_store_open establish. */
  ghost predicate Good(c: Config) {
    && Extent(c.tb) && c.lo <= c.hi <= c.tb.rows && c.ways >= 1
    && (c.source.Packed? ==> PackedHolds(c.tb, c.source.file, c.lo, c.hi))
    && (c.source.Pinned? ==> c.source.scales == OwnedScales(c.tb, c.lo, c.hi))
  }

  /** fetch_row: the two *Lock points wait for the stripe, CopyOut and Fill have moved n bytes. */
  datatype Pc = Idle | ProbeLock | Probe(w: nat) | CopyOut(w: nat, n: nat) | Miss | MissScale
              | FillLock | Fill(w: nat, n: nat) | FillKey(w: nat) | Done

  datatype Thread = Thread(pc: Pc, id: nat, row: seq<Byte>)

  datatype State = State(keys: seq<seq<nat>>, cache: seq<seq<seq<Byte>>>, victim: seq<nat>, locks: seq<Option<nat>>,
          threads: seq<Thread>)

  datatype Action = Begin(i: nat, id: nat) | Step(i: nat)

  function SetOf(c: Config, id: nat): (k: nat)
    ensures c.sets > 0 ==> k < c.sets
  {
    if c.sets == 0 then 0 else id % c.sets
  }

  function Stripe(k: nat): (st: nat)
    ensures st < STRIPES
  {
    k % STRIPES
  }

  /** Distinct (set, way) pairs are distinct slots of the flat arrays. */
  lemma SlotsAreDistinct(sets: nat, ways: nat, k: nat, w: nat, k': nat, w': nat)
    requires k < sets && k' < sets && w < ways && w' < ways
    ensures k * ways + w < sets * ways
    ensures k * ways + w == k' * ways + w' ==> k == k' && w == w'
  {
    MulMono(k + 1, sets, ways);
    if k < k' { MulMono(k + 1, k', ways); }
    if k' < k { MulMono(k' + 1, k, ways); }
  }

  /** The thread is writing way w of its set. */
  predicate Writes(pc: Pc, w: nat) { (pc.Fill? && pc.w == w) || (pc.FillKey? && pc.w == w) }

  predicate Holding(pc: Pc) { pc.Probe? || pc.CopyOut? || pc.Fill? || pc.FillKey? }

  /** Memory that nothing reads before it is written. */
  function BlankRow(): seq<Byte> { seq(ROW, _ => 0) }

  function Init(c: Config, n: nat): State {
    State(seq(c.sets, _ => seq(c.ways, _ => 0)), seq(c.sets, _ => seq(c.ways, _ => BlankRow())),
          seq(c.sets, _ => 0), seq(STRIPES, _ => None), seq(n, _ => Thread(Idle, 0, BlankRow())))
  }

  ghost predicate Shape(c: Config, s: State) {
    && |s.keys| == |s.cache| == |s.victim| == c.sets && |s.locks| == STRIPES
    && (forall k | 0 <= k < c.sets :: |s.keys[k]| == |s.cache[k]| == c.ways)
    && (forall k, w | 0 <= k < c.sets && 0 <= w < c.ways :: |s.cache[k][w]| == ROW)
    && (forall i | 0 <= i < |s.threads| :: |s.threads[i].row| == ROW)
    && (forall i | 0 <= i < |s.threads| && !s.threads[i].pc.Idle? :: c.lo <= s.threads[i].id < c.hi)
    && (forall i | 0 <= i < |s.threads| && Holding(s.threads[i].pc) :: c.sets > 0)
  }

  ghost predicate Enabled(c: Config, s: State, a: Action)
    requires Shape(c, s)
  {
    a.i < |s.threads| &&
    var t := s.threads[a.i];
    match a
    case Begin(_, id) => (t.pc.Idle? || t.pc.Done?) && c.lo <= id < c.hi
    case Step(_) =>
      && !t.pc.Idle? && !t.pc.Done?
      && (t.pc.ProbeLock? || t.pc.FillLock? ==> c.sets == 0 || s.locks[Stripe(SetOf(c, t.id))].None?)
  }

  function Move(s: State, i: nat, t: Thread): State
    requires i < |s.threads|
  {
    s.(threads := s.threads[i := t])
  }

  function SetLock(s: State, st: nat, v: Option<nat>): State
    requires st < |s.locks|
  {
    s.(locks := s.locks[st := v])
  }

  ghost function Next(c: Config, s: State, a: Action): State
    requires Good(c) && Shape(c, s) && Enabled(c, s, a) && (a.Step? ==> WaysOk(c, s, a.i))
  {
    var i := a.i;
    var t := s.threads[i];
    if a.Begin? then Move(s, i, Thread(ProbeLock, a.id, t.row)) else
    var k, st, id := SetOf(c, t.id), Stripe(SetOf(c, t.id)), t.id;
    match t.pc
    case ProbeLock =>
      if c.sets == 0 then Move(s, i, t.(pc := Miss)) else Move(SetLock(s, st, Some(i)), i, t.(pc := Probe(0)))
    case Probe(w) =>
      if w < c.ways then
        Move(s, i, t.(pc := if s.keys[k][w] == id + 1 then CopyOut(w, 0) else Probe(w + 1)))
      else Move(SetLock(s, st, None), i, t.(pc := Miss))
    case CopyOut(w, n) =>
      if n < ROW then Move(s, i, t.(pc := CopyOut(w, n + 1), row := t.row[n := s.cache[k][w][n]]))
      else Move(SetLock(s, st, None), i, t.(pc := Done))
    case Miss =>
      if c.source.Packed? then
        var at := HEADER + (id - c.lo) * ROW;
        Move(s, i, t.(pc := FillLock, row := Slice(c.source.file, at, ROW)))
      else
        var at := c.tb.woff + id * WEIGHT;
        Move(s, i, t.(pc := MissScale, row := c.tb.file[at..at + WEIGHT] + t.row[WEIGHT..]))
    case MissScale =>
      var at := if c.source.Pinned? then (id - c.lo) * SCALE else c.tb.soff + id * SCALE;
      var bytes := if c.source.Pinned? then c.source.scales else c.tb.file;
      Move(s, i, t.(pc := FillLock, row := t.row[..WEIGHT] + Slice(bytes, at, SCALE)))
    case FillLock =>
      if c.sets == 0 then Move(s, i, t.(pc := Done))
      else
        var w := s.victim[k] % c.ways;
        Move(SetLock(s, st, Some(i)).(victim := s.victim[k := (s.victim[k] + 1) % c.ways]), i, t.(pc := Fill(w, 0)))
    case Fill(w, n) =>
      if n < ROW then
        Move(s.(cache := s.cache[k := s.cache[k][w := s.cache[k][w][n := t.row[n]]]]), i, t.(pc := Fill(w, n + 1)))
      else Move(s, i, t.(pc := FillKey(w)))
    case FillKey(w) =>
      var line: seq<nat> := s.keys[k][w := id + 1];
      Move(SetLock(s, st, None).(keys := s.keys[k := line]), i, t.(pc := Done))
    case Idle => s
    case Done => s
  }

  function Slice(b: seq<Byte>, at: nat, n: nat): seq<Byte> { if at + n <= |b| then b[at..at + n] else seq(n, _ => 0) }

  /** The way a thread works on exists. */
  predicate WaysOk(c: Config, s: State, i: nat) {
    i < |s.threads| &&
    match s.threads[i].pc
    case CopyOut(w, _) => w < c.ways
    case Fill(w, _) => w < c.ways
    case FillKey(w) => w < c.ways
    case _ => true
  }

  /* ------------------------------------------------------------------------- the invariant */

  /** The stripe's holder is writing slot (k, w). */
  predicate Dirty(c: Config, s: State, k: nat, w: nat)
    requires |s.locks| == STRIPES
  {
    var l := s.locks[Stripe(k)];
    l.Some? && l.value < |s.threads| && Writes(s.threads[l.value].pc, w) && SetOf(c, s.threads[l.value].id) == k
  }

  /** A key names an owned row of its set, and outside a write the slot holds that row. */
  ghost predicate SlotOk(c: Config, s: State, k: nat, w: nat)
    requires Good(c) && Shape(c, s) && k < c.sets && w < c.ways
  {
    s.keys[k][w] > 0 ==>
      var id := s.keys[k][w] - 1;
      && c.lo <= id < c.hi && SetOf(c, id) == k
      && (!Dirty(c, s, k, w) ==> s.cache[k][w] == Row(c.tb, id))
  }

  ghost predicate ThreadOk(c: Config, s: State, i: nat)
    requires Good(c) && Shape(c, s) && i < |s.threads|
  {
    var t := s.threads[i];
    var k := SetOf(c, t.id);
    && WaysOk(c, s, i)
    && (Holding(t.pc) ==> s.locks[Stripe(k)] == Some(i))
    && (match t.pc
        case CopyOut(w, n) =>
          n <= ROW && s.keys[k][w] == t.id + 1 && t.row[..n] == Row(c.tb, t.id)[..n]
        case MissScale => !c.source.Packed? && t.row[..WEIGHT] == Row(c.tb, t.id)[..WEIGHT]
        case FillLock => t.row == Row(c.tb, t.id)
        case Fill(w, n) => n <= ROW && t.row == Row(c.tb, t.id) && s.cache[k][w][..n] == t.row[..n]
        case FillKey(w) => t.row == Row(c.tb, t.id) && s.cache[k][w] == t.row
        case Done => t.row == Row(c.tb, t.id)
        case _ => true)
  }

  ghost predicate Inv(c: Config, s: State)
    requires Good(c)
  {
    && Shape(c, s)
    && (forall i: nat | i < |s.threads| :: ThreadOk(c, s, i))
    && (forall k: nat, w: nat | k < c.sets && w < c.ways :: SlotOk(c, s, k, w))
  }
}
