/** row_store_lookup as a whole (adapter/row_store.cpp): the pool decides who serves which index and when,
    each served index is fetched through the cache, and its row is written to its output slot. */
module RowLookup {
  import opened IntMath
  import opened Options
  import opened RowStore
  import Pool
  import PoolProof
  import RowCache
  import RowCacheProof

  type Row264 = seq<Byte>

  /** Output slots of each job: what was last written there. */
  type Outputs = map<nat, seq<Option<Row264>>>

  /** One index of a job: its id, and what fetch_row returned if it was called. */
  datatype Item = Item(id: int, fetched: Row264)

  type Work = seq<Item>

  /** The answer of some lookup of `id`, in some reachable state of the cache. */
  ghost predicate Answered(c: RowCache.Config, id: nat, row: Row264)
    requires RowCache.Good(c)
  {
    exists n: nat, acts: seq<RowCache.Action>, s: RowCache.State, i: nat ::
      RowCacheProof.Run(c, RowCache.Init(c, n), acts, s) && i < |s.threads|
      && s.threads[i].pc.Done? && s.threads[i].id == id && s.threads[i].row == row
  }

  /** Every id is in the table (serve() fails otherwise), and owned ids were answered by the cache. */
  ghost predicate Fetches(c: RowCache.Config, w: Work)
    requires RowCache.Good(c)
  {
    forall i | 0 <= i < |w| ::
      0 <= w[i].id < c.tb.rows && (c.lo <= w[i].id < c.hi ==> Answered(c, w[i].id, w[i].fetched))
  }

  /** What serve() writes for an index: the fetched row, or zeros for a row of another rank. */
  function Slot(c: RowCache.Config, it: Item): Row264 { if c.lo <= it.id < c.hi then it.fetched else seq(ROW, _ => 0) }

  /** The thread that a step makes serve a ticket. */
  function Server(s: Pool.State, a: Pool.Action): Option<nat>
    requires Pool.Shape(s)
  {
    if a.CallerStep? && s.caller.Draining? && s.pos[Pool.N(s)].Serve? then Some(Pool.N(s))
    else if a.WorkerStep? && a.i < Pool.N(s) && s.mode[a.i].Drains? && s.pos[a.i].Serve? then Some(a.i)
    else None
  }

  /** The slots of job j after indices [lo, hi) were served. */
  function Fill(c: RowCache.Config, w: Work, slots: seq<Option<Row264>>, lo: nat, hi: nat): (r: seq<Option<Row264>>)
    ensures |r| == |slots|
  {
    seq(|slots|, i requires 0 <= i < |slots| => if lo <= i < hi && i < |w| then Some(Slot(c, w[i])) else slots[i])
  }

  /** What a step of the pool does to the outputs; job j is works[j - 1]. */
  function Written(c: RowCache.Config, works: seq<Work>, s: Pool.State, a: Pool.Action, out: Outputs): Outputs
    requires Pool.Shape(s)
  {
    if a.Start? then out[s.cur + 1 := seq(a.count, _ => None)]
    else if Server(s, a).None? then out
    else
      var th := Server(s, a).value;
      var j, lo := s.work[th], s.pos[th].t * Pool.CHUNK;
      if j !in out || j == 0 || j > |works| then out
      else out[j := Fill(c, works[j - 1], out[j], lo, Min(lo + Pool.CHUNK, |out[j]|))]
  }

  /** A schedule of the pool, with its outputs. */
  ghost predicate Run(c: RowCache.Config, works: seq<Work>, s: Pool.State, out: Outputs, acts: seq<Pool.Action>,
          s': Pool.State, out': Outputs)
    decreases |acts|
  {
    if acts == [] then s' == s && out' == out
    else
      && Pool.Shape(s) && Pool.Enabled(s, acts[0])
      && Run(c, works, Pool.Next(s, acts[0]), Written(c, works, s, acts[0], out), acts[1..], s', out')
  }

  /** An index that was served has its row in its slot. */
  ghost predicate Tied(c: RowCache.Config, works: seq<Work>, s: Pool.State, out: Outputs)
  {
    && (forall j: nat :: j in s.served <==> j in out)
    && (forall j: nat | j in s.served :: |out[j]| == |s.served[j]|)
    && forall j: nat, i: nat | j in s.served && 1 <= j <= |works| && i < |s.served[j]| && i < |works[j - 1]| ::
         s.served[j][i] > 0 ==> out[j][i] == Some(Slot(c, works[j - 1][i]))
  }

  lemma StepTies(c: RowCache.Config, works: seq<Work>, s: Pool.State, a: Pool.Action, out: Outputs)
    requires Pool.Inv(s) && Pool.Enabled(s, a) && Tied(c, works, s, out)
    ensures Tied(c, works, Pool.Next(s, a), Written(c, works, s, a, out))
  {
    hide Slot, Pool.Tickets, Pool.History, Pool.CountOpen, Pool.CountWorking;
    if Server(s, a).Some? {
      ServeTies(c, works, s, a, out);
    } else {
      assert !a.Start? ==> Pool.Next(s, a).served == s.served;
    }
  }

  /** Serving a ticket counts its indices, of a job that is on record. */
  lemma ServeCounts(s: Pool.State, a: Pool.Action, th: nat)
    requires Pool.Inv(s) && Pool.Enabled(s, a) && Server(s, a) == Some(th)
    ensures
      var j, lo := s.work[th], s.pos[th].t * Pool.CHUNK;
      && j in s.served
      && Pool.Next(s, a).served == s.served[j := Pool.ServeRows(s.served[j], lo, Min(lo + Pool.CHUNK, |s.served[j]|))]
  {
    hide Pool.Tickets, Pool.CountOpen, Pool.CountWorking;
    assert th < Pool.N(s) ==> Pool.Working(s.mode[th]);
    assert s.work[th] == s.cur;
  }

  lemma ServeTies(c: RowCache.Config, works: seq<Work>, s: Pool.State, a: Pool.Action, out: Outputs)
    requires Pool.Inv(s) && Pool.Enabled(s, a) && Tied(c, works, s, out) && Server(s, a).Some?
    ensures Tied(c, works, Pool.Next(s, a), Written(c, works, s, a, out))
  {
    hide Slot, Pool.Next, Pool.Inv, Pool.Enabled, Server;
    ServerShape(s, a);
    ServeCounts(s, a, Server(s, a).value);
  }

  lemma ServerShape(s: Pool.State, a: Pool.Action)
    requires Pool.Inv(s)
    ensures Pool.Shape(s) && (Server(s, a).Some? ==> !a.Start?)
  {}

  lemma {:induction false} RunTies(c: RowCache.Config, works: seq<Work>, s: Pool.State, out: Outputs,
          acts: seq<Pool.Action>, s': Pool.State, out': Outputs)
    requires Pool.Inv(s) && Tied(c, works, s, out) && Run(c, works, s, out, acts, s', out')
    ensures Tied(c, works, s', out') && Pool.Run(s, acts, s')
    decreases |acts|
  {
    hide Tied, Written, Pool.Next, Pool.Inv, Pool.Enabled;
    if acts != [] {
      assert Pool.Shape(s) && Pool.Enabled(s, acts[0]);
      StepTies(c, works, s, acts[0], out);
      PoolProof.NextKeeps(s, acts[0]);
      RunTies(c, works, Pool.Next(s, acts[0]), Written(c, works, s, acts[0], out), acts[1..], s', out');
    }
  }

  /** Whatever the cache answered for an owned id is the table's row. */
  lemma SlotIsServed(c: RowCache.Config, w: Work, i: nat)
    requires RowCache.Good(c) && Fetches(c, w) && i < |w|
    ensures 0 <= w[i].id < c.tb.rows && Serves(c.tb, c.lo, c.hi, w[i].id, Slot(c, w[i]))
  {
    if c.lo <= w[i].id < c.hi {
      var n: nat, acts, s, k: nat :| RowCacheProof.Run(c, RowCache.Init(c, n), acts, s) && k < |s.threads|
        && s.threads[k].pc.Done? && s.threads[k].id == w[i].id && s.threads[k].row == w[i].fetched;
      RowCacheProof.CacheRefines(c, n, acts, s);
    }
  }

  /** The end result: over every schedule of the pool and every concurrent use of the cache, once run() has
      returned for a job, each of its output slots holds the table's row of its id, or 264 zero bytes if
      another rank owns the id. */
  lemma LookupDelivers(c: RowCache.Config, works: seq<Work>, n: nat, acts: seq<Pool.Action>, s: Pool.State,
          out: Outputs, j: nat)
    requires RowCache.Good(c) && forall k | 0 <= k < |works| :: Fetches(c, works[k])
    requires Run(c, works, Pool.Init(n), map[], acts, s, out)
    requires Pool.Jobs(acts) == seq(|works|, k requires 0 <= k < |works| => |works[k]|)
    requires Pool.Returned(s, j)
    ensures 1 <= j <= |works| && j in out && |out[j]| == |works[j - 1]|
    ensures forall i | 0 <= i < |out[j]| ::
              0 <= works[j - 1][i].id < c.tb.rows && out[j][i].Some? && |out[j][i].value| == ROW
    ensures forall i | 0 <= i < |out[j]| && c.lo <= works[j - 1][i].id < c.hi ::
              out[j][i].value == Row(c.tb, works[j - 1][i].id)
    ensures forall i, k | 0 <= i < |out[j]| && !(c.lo <= works[j - 1][i].id < c.hi) && 0 <= k < ROW ::
              out[j][i].value[k] == 0
  {
    PoolProof.InitKeeps(n);
    RunTies(c, works, Pool.Init(n), map[], acts, s, out);
    PoolProof.PoolSafety(n, acts, s);
    hide Slot, Serves, Run, Pool.Run;
    var w, slots := works[j - 1], out[j];
    forall i: nat | i < |slots|
      ensures 0 <= w[i].id < c.tb.rows && slots[i].Some? && Serves(c.tb, c.lo, c.hi, w[i].id, slots[i].value)
    {
      assert s.served[j][i] == 1;
      SlotIsServed(c, w, i);
    }
    SlotsServed(c, w, slots);
  }

  lemma SlotsServed(c: RowCache.Config, w: Work, slots: seq<Option<Row264>>)
    requires Extent(c.tb) && c.hi <= c.tb.rows && |slots| == |w|
    requires forall i: nat | i < |slots| ::
               0 <= w[i].id < c.tb.rows && slots[i].Some? && Serves(c.tb, c.lo, c.hi, w[i].id, slots[i].value)
    ensures forall i | 0 <= i < |slots| :: |slots[i].value| == ROW
    ensures forall i | 0 <= i < |slots| && c.lo <= w[i].id < c.hi :: slots[i].value == Row(c.tb, w[i].id)
    ensures forall i, k | 0 <= i < |slots| && !(c.lo <= w[i].id < c.hi) && 0 <= k < ROW ::
              slots[i].value[k] == 0
  {}
}
