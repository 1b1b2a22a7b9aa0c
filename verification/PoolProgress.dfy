/** Progress of the pool: no wakeup is lost, and every run() ends. */
module PoolProgress {
  import opened Pool
  import opened PoolProof

  /* -------------------------------------------------------------------------- the measure */

  function PosRank(p: Pos, chunks: nat): nat {
    match p
    case Out => 0
    case Draw => 20
    case Check(t) => if t < chunks then 30 else 15
    case Serve(_) => 29
    case Sub(_) => 28
    case Notify => 27
  }

  /** A worker that has not seen the current generation may still join the job. */
  function WorkerRank(s: State, i: nat): nat
    requires Shape(s) && i < N(s)
  {
    var stale := if s.seen[i] == s.generation then 0 else 22;
    match s.mode[i]
    case Sleeping => stale
    case Ready => stale + 1
    case Drains => PosRank(s.pos[i], s.chunks)
    case Leaving => 10
  }

  function CallerRank(s: State): nat
    requires Shape(s)
  {
    match s.caller
    case NotifyReady => 31 + N(s)
    case Draining => 10 + PosRank(s.pos[N(s)], s.chunks)
    case WaitLock => 4
    case PredRemaining => 3
    case PredActive => 2
    case GoSleep => 1
    case Finish => 1
    case _ => 0
  }

  function Ranks(s: State): seq<nat>
    requires Shape(s)
  {
    seq(N(s), i requires 0 <= i < N(s) => WorkerRank(s, i))
  }

  function Total(r: seq<nat>): nat { if r == [] then 0 else r[0] + Total(r[1..]) }

  function Measure(s: State): nat
    requires Shape(s)
  {
    11 * Left(s) + CallerRank(s) + Total(Ranks(s))
  }

  /** Tickets nobody has drawn yet. */
  function Left(s: State): nat { if s.next < s.chunks then s.chunks - s.next else 0 }

  lemma {:induction false} TotalUpdate(r: seq<nat>, i: nat, v: nat)
    requires i < |r|
    ensures Total(r[i := v]) == Total(r) - r[i] + v
  {
    if i == 0 {
      assert r[i := v][1..] == r[1..];
    } else {
      assert r[i := v][1..] == r[1..][i - 1 := v];
      TotalUpdate(r[1..], i - 1, v);
    }
  }

  lemma {:induction false} TotalBound(r: seq<nat>, r': seq<nat>)
    requires |r| == |r'| && forall i | 0 <= i < |r| :: r'[i] <= r[i] + 1
    ensures Total(r') <= Total(r) + |r|
  {
    if r != [] { TotalBound(r[1..], r'[1..]); }
  }

  /** Only worker i's rank moves. */
  lemma RankMoves(s: State, s': State, i: nat)
    requires Shape(s) && Shape(s') && N(s) == N(s') && i < N(s)
    requires s.generation == s'.generation && s.chunks == s'.chunks
    requires forall k | 0 <= k < N(s) && k != i ::
               s.mode[k] == s'.mode[k] && s.seen[k] == s'.seen[k] && s.pos[k] == s'.pos[k]
    ensures Total(Ranks(s')) == Total(Ranks(s)) - WorkerRank(s, i) + WorkerRank(s', i)
  {
    assert Ranks(s') == Ranks(s)[i := WorkerRank(s', i)];
    TotalUpdate(Ranks(s), i, WorkerRank(s', i));
  }

  /* --------------------------------------------------------------------- every step counts */

  predicate Wakes(a: Action) { a.WakeCaller? || a.WakeWorker? }

  lemma WorkerDecreases(s: State, i: nat)
    requires Inv(s) && Enabled(s, WorkerStep(i)) && !s.caller.Publish?
    ensures Measure(WorkerNext(s, i)) < Measure(s)
  {
    RankMoves(s, WorkerNext(s, i), i);
    if s.mode[i].Drains? { DrainLowers(s, i); } else { OutsideLowers(s, i); }
    hide Inv, Ranks, Total, Left, CallerRank, WorkerRank, WorkerNext;
  }

  lemma OutsideLowers(s: State, i: nat)
    requires Inv(s) && Enabled(s, WorkerStep(i)) && !s.mode[i].Drains?
    ensures var s' := WorkerNext(s, i);
            11 * Left(s') + CallerRank(s') + WorkerRank(s', i) < 11 * Left(s) + CallerRank(s) + WorkerRank(s, i)
  {
    assert s.mode[i].Leaving? ==> s.seen[i] == s.generation;
    assert s.pos[N(s)] == WorkerNext(s, i).pos[N(s)];
    hide Inv;
  }

  lemma DrainLowers(s: State, i: nat)
    requires Shape(s) && i < N(s) && s.mode[i].Drains? && CanDrain(s, i)
    ensures var s' := DrainNext(s, i);
            11 * Left(s') + CallerRank(s') + WorkerRank(s', i) < 11 * Left(s) + CallerRank(s) + WorkerRank(s, i)
  {
    hide ServeRows, Put;
    var s' := DrainNext(s, i);
    assert s'.pos[N(s)] == s.pos[N(s)] && s'.chunks == s.chunks;
    assert CallerRank(s') <= CallerRank(s) + (if s.pos[i].Notify? then 4 else 0);
    hide CallerRank;
  }

  lemma CallerDecreases(s: State)
    requires Inv(s) && Enabled(s, CallerStep) && !s.caller.Publish?
    ensures Measure(CallerNext(s)) < Measure(s)
  {
    hide Tickets, History, CountOpen, CountWorking, Total, ServeRows, Put;
    var s' := CallerNext(s);
    assert Shape(s') && N(s') == N(s);
    if s.caller.NotifyReady? {
      TotalBound(Ranks(s), Ranks(s'));
    } else {
      assert Ranks(s') == Ranks(s);
    }
    CallerFalls(s);
    hide Inv, Ranks, Left, CallerRank, CallerNext;
  }

  lemma CallerFalls(s: State)
    requires Inv(s) && Enabled(s, CallerStep) && !s.caller.Publish?
    ensures var s' := CallerNext(s);
            11 * Left(s') + CallerRank(s') + (if s.caller.NotifyReady? then N(s) else 0) < 11 * Left(s) + CallerRank(s)
  {
    hide Tickets, History, CountOpen, CountWorking, ServeRows, Put;
  }

  lemma WakeBound(s: State, a: Action)
    requires Inv(s) && Enabled(s, a) && Wakes(a)
    ensures Measure(Next(s, a)) <= Measure(s) + 4
  {
    hide Tickets, History, Shared, CountOpen, CountWorking, Total;
    if a.WakeWorker? { RankMoves(s, Next(s, a), a.i); } else { assert Ranks(Next(s, a)) == Ranks(s); }
  }

  /** While run() is waiting asleep, its predicate is false and a worker inside the job can step; in
      any other state of run() the caller itself can.  So no wakeup is lost and nothing deadlocks. */
  lemma NoLostWakeup(n: nat, acts: seq<Action>, s: State)
    requires Run(Init(n), acts, s) && (InRun(s.caller) || s.caller.Finish?)
    ensures Shape(s)
    ensures s.caller.Asleep? ==>
              && !(s.remaining == 0 && s.active == 0)
              && exists i: nat :: i < N(s) && Working(s.mode[i]) && Enabled(s, WorkerStep(i))
    ensures !s.caller.Asleep? ==> Enabled(s, CallerStep)
  {
    InitKeeps(n);
    RunKeeps(Init(n), acts, s);
    hide Tickets, History, CountOpen;
    if s.caller.Asleep? {
      CountWorkingZero(s.mode);
      var i :| 0 <= i < N(s) && Working(s.mode[i]);
      assert Enabled(s, WorkerStep(i));
    }
  }

  function WakeCount(acts: seq<Action>): nat {
    if acts == [] then 0 else (if Wakes(acts[0]) then 1 else 0) + WakeCount(acts[1..])
  }

  /** Once a job is published, a schedule that starts no other job takes at most Measure(s) steps
      besides the spurious wakeups, each of which buys at most four more. */
  lemma {:induction false} RunEnds(s: State, acts: seq<Action>, s': State)
    requires Inv(s) && !s.caller.Publish? && Run(s, acts, s')
    requires forall a | a in acts :: !a.Start?
    ensures Inv(s') && !s'.caller.Publish?
    ensures |acts| + Measure(s') <= Measure(s) + 5 * WakeCount(acts)
    decreases |acts|
  {
    hide Tickets, History, CountOpen, CountWorking, Measure;
    if acts != [] {
      var a := acts[0];
      NextKeeps(s, a);
      if Wakes(a) { WakeBound(s, a); }
      else if a.CallerStep? { CallerDecreases(s); }
      else { WorkerDecreases(s, a.i); }
      StaysPublished(s, a);
      RunEnds(Next(s, a), acts[1..], s');
    }
  }

  lemma StaysPublished(s: State, a: Action)
    requires Threads(s) && Enabled(s, a) && !s.caller.Publish? && !a.Start?
    ensures !Next(s, a).caller.Publish?
  {}

  lemma CallerStepShape(s: State)
    requires Threads(s) && Enabled(s, CallerStep) && (InRun(s.caller) || s.caller.Finish?)
    ensures var m := Next(s, CallerStep);
            && m.cur == s.cur && N(m) == N(s) && (InRun(m.caller) || m.caller.Finish? || m.caller.Idle?)
            && forall i | 0 <= i < N(s) :: Working(m.mode[i]) ==> Working(s.mode[i])
  {}

  lemma CallerStepAlone(s: State)
    requires Inv(s) && (InRun(s.caller) || s.caller.Finish?)
    requires forall i | 0 <= i < N(s) :: !Working(s.mode[i])
    ensures Enabled(s, CallerStep) && s.cur >= 1
    ensures var m := Next(s, CallerStep);
            && Inv(m) && m.cur == s.cur && Measure(m) < Measure(s)
            && (InRun(m.caller) || m.caller.Finish? || m.caller.Idle?)
            && forall i | 0 <= i < N(m) :: !Working(m.mode[i])
  {
    CountWorkingZero(s.mode);
    assert s.cur >= 1 && Enabled(s, CallerStep);
    NextKeeps(s, CallerStep);
    CallerDecreases(s);
    CallerStepShape(s);
    hide Inv, Measure, Next;
  }

  /** Even if no worker ever wakes, the caller alone serves the job and returns. */
  lemma {:induction false} CallerAlone(s: State) returns (acts: seq<Action>, s': State)
    requires Inv(s) && (InRun(s.caller) || s.caller.Finish?)
    requires forall i | 0 <= i < N(s) :: !Working(s.mode[i])
    ensures Run(s, acts, s') && Inv(s')
    ensures forall a | a in acts :: a.CallerStep?
    ensures Returned(s', s.cur)
    decreases Measure(s)
  {
    CallerStepAlone(s);
    hide Inv, Measure, Next;
    var m := Next(s, CallerStep);
    if m.caller.Idle? {
      acts, s' := [CallerStep], m;
      assert Run(m, [], m) && acts[1..] == [];
    } else {
      var rest;
      rest, s' := CallerAlone(m);
      acts := [CallerStep] + rest;
      assert acts[1..] == rest;
    }
  }
}
