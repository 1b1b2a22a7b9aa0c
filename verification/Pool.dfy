/** The thread pool of adapter/row_store.cpp as a step relation.

    Every access to a location that another thread may touch without the mutex is a step of its own;
    a critical section is one step unless such an access happens inside it.  Only the caller keeps
    the mutex over several steps, so its program counter says whether the mutex is free.  A condition
    variable may wake its waiter at any time.  The scheduler is adversarial. */
module Pool {
  import opened Options

  /** Row ids per ticket. */
  const CHUNK: nat := 1

  /** Position of a thread inside drain(). */
  datatype Pos = Out | Draw | Check(t: nat) | Serve(t: nat) | Sub(t: nat) | Notify

  /** run(): Publish(k) has done k writes of the first critical section and holds the mutex. */
  datatype Caller = Idle | Publish(k: nat) | NotifyReady | Draining
                  | WaitLock | PredRemaining | PredActive | GoSleep | Asleep | Finish

  /** loop(): Ready is about to take the mutex and look at the generation. */
  datatype Mode = Ready | Sleeping | Drains | Leaving

  /** History of a ticket of the current job. */
  datatype Ticket = Free | Held(owner: nat) | Served(owner: nat) | Done

  /** n workers are threads 0 .. n - 1, the caller is thread n.  `cur` numbers the jobs, `tickets`
      and `served` record history: served[j][i] is how often row index i of job j was served. */
  datatype State = State(
    caller: Caller, mode: seq<Mode>, seen: seq<nat>, pos: seq<Pos>, work: seq<nat>,
    job: Option<nat>, next: nat, chunks: nat, remaining: int, active: int, generation: nat,
    cur: nat, tickets: seq<Ticket>, served: map<nat, seq<nat>>)

  datatype Action = Start(count: nat) | CallerStep | WorkerStep(i: nat) | WakeCaller | WakeWorker(i: nat)

  predicate MutexFree(c: Caller) {
    !(c.Publish? || c.PredRemaining? || c.PredActive? || c.GoSleep? || c.Finish?)
  }

  /** run() has published its job and has not returned. */
  predicate InRun(c: Caller) {
    c.NotifyReady? || c.Draining? || c.WaitLock? || c.PredRemaining? || c.PredActive? || c.GoSleep? || c.Asleep?
  }

  /** run() has left drain() and waits for the job to end. */
  predicate Waits(c: Caller) {
    c.WaitLock? || c.PredRemaining? || c.PredActive? || c.GoSleep? || c.Asleep? || c.Finish?
  }

  function N(s: State): nat { |s.mode| }

  predicate Shape(s: State) {
    |s.seen| == N(s) && |s.pos| == |s.work| == N(s) + 1
  }

  function Init(n: nat): State {
    State(Idle, seq(n, i => Ready), seq(n, i => 0), seq(n + 1, i => Out), seq(n + 1, i => 0),
          None, 0, 0, 0, 0, 0, 0, [], map[])
  }

  predicate CanDrain(s: State, th: nat)
    requires Shape(s) && th <= N(s)
  {
    !s.pos[th].Out? && (s.pos[th].Notify? ==> MutexFree(s.caller))
  }

  predicate Enabled(s: State, a: Action)
    requires Shape(s)
  {
    match a
    case Start(_) => s.caller.Idle?
    case CallerStep =>
      !s.caller.Idle? && !s.caller.Asleep? && (s.caller.Draining? ==> CanDrain(s, N(s)))
    case WorkerStep(i) =>
      i < N(s) &&
      (match s.mode[i]
       case Ready => MutexFree(s.caller)
       case Sleeping => false
       case Drains => CanDrain(s, i)
       case Leaving => MutexFree(s.caller))
    case WakeCaller => s.caller.Asleep?
    case WakeWorker(i) => i < N(s) && s.mode[i].Sleeping?
  }

  /** done_.notify_one(): the caller is the only waiter. */
  function Woken(c: Caller): Caller { if c.Asleep? then WaitLock else c }

  /** serve(work, lo, hi): bumps the history of the rows it serves. */
  function ServeRows(rows: seq<nat>, lo: nat, hi: nat): (r: seq<nat>)
    ensures |r| == |rows|
    ensures forall i | 0 <= i < |rows| :: r[i] == rows[i] + if lo <= i < hi then 1 else 0
  {
    seq(|rows|, i requires 0 <= i < |rows| => if lo <= i < hi then rows[i] + 1 else rows[i])
  }

  function Put(ts: seq<Ticket>, t: nat, v: Ticket): seq<Ticket> { if t < |ts| then ts[t := v] else ts }

  /** One step of drain() by thread th. */
  function DrainNext(s: State, th: nat): State
    requires Shape(s) && th <= N(s) && CanDrain(s, th)
  {
    match s.pos[th]
    case Draw =>
      s.(next := s.next + 1, pos := s.pos[th := Check(s.next)], tickets := Put(s.tickets, s.next, Held(th)))
    case Check(t) =>
      if t < s.chunks then s.(pos := s.pos[th := Serve(t)])
      else if th == N(s) then s.(pos := s.pos[th := Out], caller := WaitLock)
      else s.(pos := s.pos[th := Out], mode := s.mode[th := Leaving])
    case Serve(t) =>
      var j := s.work[th];
      var rows := if j in s.served then s.served[j] else [];
      var lo := t * CHUNK;
      s.(pos := s.pos[th := Sub(t)], tickets := Put(s.tickets, t, Served(th)),
         served := s.served[j := ServeRows(rows, lo, if lo + CHUNK <= |rows| then lo + CHUNK else |rows|)])
    case Sub(t) =>
      s.(pos := s.pos[th := if s.remaining == 1 then Notify else Draw],
         remaining := s.remaining - 1, tickets := Put(s.tickets, t, Done))
    case Notify => s.(pos := s.pos[th := Draw], caller := Woken(s.caller))
  }

  function CallerNext(s: State): State
    requires Shape(s) && Enabled(s, CallerStep)
  {
    var n := N(s);
    match s.caller
    case Publish(k) =>
      if k == 0 then s.(caller := Publish(1), job := Some(s.cur))
      else if k == 1 then s.(caller := Publish(2), next := 0)
      else if k == 2 then s.(caller := Publish(3), chunks := |s.tickets|)
      else if k == 3 then s.(caller := Publish(4), remaining := |s.tickets|)
      else if k == 4 then s.(caller := Publish(5), generation := s.generation + 1)
      else s.(caller := NotifyReady)
    case NotifyReady =>
      s.(caller := Draining, pos := s.pos[n := Draw], work := s.work[n := s.cur],
         mode := seq(n, i requires 0 <= i < n => if s.mode[i].Sleeping? then Ready else s.mode[i]))
    case Draining => DrainNext(s, n)
    case WaitLock => s.(caller := PredRemaining)
    case PredRemaining => s.(caller := if s.remaining == 0 then PredActive else GoSleep)
    case PredActive => s.(caller := if s.active == 0 then Finish else GoSleep)
    case GoSleep => s.(caller := Asleep)
    case Finish => s.(caller := Idle, job := None)
  }

  function WorkerNext(s: State, i: nat): State
    requires Shape(s) && Enabled(s, WorkerStep(i))
  {
    match s.mode[i]
    case Ready =>
      if s.generation == s.seen[i] then s.(mode := s.mode[i := Sleeping])
      else if s.job.None? then s.(seen := s.seen[i := s.generation])
      else s.(seen := s.seen[i := s.generation], mode := s.mode[i := Drains], active := s.active + 1,
              work := s.work[i := s.job.value], pos := s.pos[i := Draw])
    case Drains => DrainNext(s, i)
    case Leaving => s.(mode := s.mode[i := Ready], active := s.active - 1, caller := Woken(s.caller))
  }

  function Next(s: State, a: Action): State
    requires Shape(s) && Enabled(s, a)
  {
    match a
    case Start(count) =>
      var chunks := (count + CHUNK - 1) / CHUNK;
      s.(caller := Publish(0), cur := s.cur + 1, tickets := seq(chunks, i => Free),
         served := s.served[s.cur + 1 := seq(count, i => 0)])
    case CallerStep => CallerNext(s)
    case WorkerStep(i) => WorkerNext(s, i)
    case WakeCaller => s.(caller := WaitLock)
    case WakeWorker(i) => s.(mode := s.mode[i := Ready])
  }

  /* ------------------------------------------------------------------------ the invariant */

  predicate Working(m: Mode) { m.Drains? || m.Leaving? }

  function CountWorking(ms: seq<Mode>): nat {
    if ms == [] then 0 else (if Working(ms[0]) then 1 else 0) + CountWorking(ms[1..])
  }

  function CountOpen(ts: seq<Ticket>): nat {
    if ts == [] then 0 else (if ts[0].Done? then 0 else 1) + CountOpen(ts[1..])
  }

  ghost predicate Threads(s: State) {
    && Shape(s)
    && (forall i | 0 <= i < N(s) :: s.mode[i].Drains? <==> !s.pos[i].Out?)
    && (s.caller.Draining? <==> !s.pos[N(s)].Out?)
    && s.active == CountWorking(s.mode)
    // no worker is inside drain() unless run() is, and then for the current job
    && (forall i | 0 <= i < N(s) && Working(s.mode[i]) ::
          InRun(s.caller) && s.work[i] == s.cur && s.seen[i] == s.generation)
    && (s.caller.Draining? ==> s.work[N(s)] == s.cur)
    && (s.caller.Publish? ==> s.caller.k <= 5)
  }

  ghost predicate Shared(s: State) {
    var c := s.caller;
    && (c.Idle? ==> s.job.None?)
    && (c.Publish? && c.k == 0 ==> s.job.None?)
    && ((c.Publish? && c.k >= 1) || InRun(c) || c.Finish? ==> s.job == Some(s.cur))
    && ((c.Publish? && c.k >= 2) ==> s.next == 0)
    && ((c.Publish? && c.k >= 3) || InRun(c) || c.Finish? ==> s.chunks == |s.tickets|)
    && ((c.Publish? && c.k >= 4) || InRun(c) || c.Finish? ==> s.remaining == CountOpen(s.tickets))
    && (Waits(c) ==> s.next >= s.chunks)
    && (c.PredActive? || c.Finish? ==> s.remaining == 0)
    && (c.Finish? ==> s.active == 0)
    // the waiter sleeps only while a worker that will wake it is still inside the job
    && (c.GoSleep? || c.Asleep? ==> s.active > 0)
  }

  /** A ticket is held or served by exactly the thread whose position says so. */
  ghost predicate Tickets(s: State)
    requires Shape(s)
  {
    && (s.caller.Publish? ==> forall t | 0 <= t < |s.tickets| :: s.tickets[t].Free?)
    && (InRun(s.caller) ==>
          && (forall t | 0 <= t < |s.tickets| :: s.tickets[t].Free? <==> t >= s.next)
          && (forall t | 0 <= t < |s.tickets| && s.tickets[t].Held? ::
                && s.tickets[t].owner <= N(s)
                && (s.pos[s.tickets[t].owner] == Check(t) || s.pos[s.tickets[t].owner] == Serve(t)))
          && (forall t | 0 <= t < |s.tickets| && s.tickets[t].Served? ::
                s.tickets[t].owner <= N(s) && s.pos[s.tickets[t].owner] == Sub(t))
          && (forall th | 0 <= th <= N(s) && s.pos[th].Check? ::
                s.pos[th].t < s.next && (s.pos[th].t < |s.tickets| ==> s.tickets[s.pos[th].t] == Held(th)))
          && (forall th | 0 <= th <= N(s) && s.pos[th].Serve? ::
                s.pos[th].t < |s.tickets| && s.tickets[s.pos[th].t] == Held(th))
          && (forall th | 0 <= th <= N(s) && s.pos[th].Sub? ::
                s.pos[th].t < |s.tickets| && s.tickets[s.pos[th].t] == Served(th)))
    && (s.caller.Finish? ==> forall t | 0 <= t < |s.tickets| :: s.tickets[t].Done?)
  }

  /** Row t of the current job has been served once if its ticket was, and every returned job has
      served each of its rows exactly once. */
  ghost predicate History(s: State) {
    && (forall j: nat :: j in s.served <==> 1 <= j <= s.cur)
    && (forall j: nat | Returned(s, j) :: AllOnce(s.served[j]))
    && (!s.caller.Idle? ==>
          && s.cur > 0 && |s.served[s.cur]| == |s.tickets|
          && forall t | 0 <= t < |s.tickets| ::
               s.served[s.cur][t] == if s.tickets[t].Served? || s.tickets[t].Done? then 1 else 0)
  }

  predicate Returned(s: State, j: nat) { 1 <= j < s.cur || (j == s.cur && j >= 1 && s.caller.Idle?) }

  predicate AllOnce(rows: seq<nat>) { forall i | 0 <= i < |rows| :: rows[i] == 1 }

  ghost predicate Inv(s: State) { Threads(s) && Shared(s) && Tickets(s) && History(s) }

  /** acts is a schedule from s to s'. */
  ghost predicate Run(s: State, acts: seq<Action>, s': State)
    decreases |acts|
  {
    if acts == [] then s == s'
    else Shape(s) && Enabled(s, acts[0]) && Run(Next(s, acts[0]), acts[1..], s')
  }

  /** Row counts of the jobs that a schedule starts, in order. */
  function Jobs(acts: seq<Action>): seq<nat> {
    if acts == [] then [] else (if acts[0].Start? then [acts[0].count] else []) + Jobs(acts[1..])
  }
}
