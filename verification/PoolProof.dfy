/** Safety of the pool: the invariant holds in every reachable state of every run. */
module PoolProof {
  import opened Pool

  /* ------------------------------------------------------------------------------ counting */

  lemma {:induction false} CountWorkingUpdate(ms: seq<Mode>, i: nat, m: Mode)
    requires i < |ms|
    ensures CountWorking(ms[i := m]) ==
            CountWorking(ms) - (if Working(ms[i]) then 1 else 0) + (if Working(m) then 1 else 0)
  {
    var ms' := ms[i := m];
    if i == 0 {
      assert ms'[1..] == ms[1..];
    } else {
      assert ms'[1..] == ms[1..][i - 1 := m];
      CountWorkingUpdate(ms[1..], i - 1, m);
    }
  }

  lemma {:induction false} CountWorkingSame(ms: seq<Mode>, ms': seq<Mode>)
    requires |ms| == |ms'| && forall i | 0 <= i < |ms| :: Working(ms[i]) <==> Working(ms'[i])
    ensures CountWorking(ms) == CountWorking(ms')
  {
    if ms != [] { CountWorkingSame(ms[1..], ms'[1..]); }
  }

  lemma {:induction false} CountWorkingZero(ms: seq<Mode>)
    ensures CountWorking(ms) == 0 <==> forall i | 0 <= i < |ms| :: !Working(ms[i])
  {
    if ms != [] {
      CountWorkingZero(ms[1..]);
      assert forall i | 0 < i < |ms| :: ms[i] == ms[1..][i - 1];
    }
  }

  lemma {:induction false} CountOpenUpdate(ts: seq<Ticket>, t: nat, v: Ticket)
    requires t < |ts|
    ensures CountOpen(ts[t := v]) ==
            CountOpen(ts) - (if ts[t].Done? then 0 else 1) + (if v.Done? then 0 else 1)
  {
    var ts' := ts[t := v];
    if t == 0 {
      assert ts'[1..] == ts[1..];
    } else {
      assert ts'[1..] == ts[1..][t - 1 := v];
      CountOpenUpdate(ts[1..], t - 1, v);
    }
  }

  lemma {:induction false} CountOpenEnds(ts: seq<Ticket>)
    ensures CountOpen(ts) == 0 <==> forall t | 0 <= t < |ts| :: ts[t].Done?
    ensures (forall t | 0 <= t < |ts| :: ts[t].Free?) ==> CountOpen(ts) == |ts|
  {
    if ts != [] {
      CountOpenEnds(ts[1..]);
      assert forall t | 0 < t < |ts| :: ts[t] == ts[1..][t - 1];
    }
  }

  /* --------------------------------------------------------------- steps keep the invariant */

  lemma InvParts(s: State)
    requires Inv(s)
    ensures Threads(s) && Tickets(s) && Shared(s) && History(s) && Shape(s)
  {
    hide Threads, Tickets, History, Shared;
    assert Shape(s) by { ThreadsShape(s); }
  }

  lemma ThreadsShape(s: State)
    requires Threads(s)
    ensures Shape(s)
  {}

  /** A thread inside drain() is there for the job that run() is still waiting for. */
  lemma DrainsCurrent(s: State, i: nat)
    requires Threads(s) && i <= N(s) && !s.pos[i].Out?
    ensures InRun(s.caller) && s.work[i] == s.cur && !Returned(s, s.work[i])
  {
    hide CountWorking;
    if i < N(s) { assert Working(s.mode[i]); }
  }

  lemma InitKeeps(n: nat)
    ensures Inv(Init(n))
  {
    CountWorkingZero(Init(n).mode);
  }

  lemma StartKeeps(s: State, count: nat)
    requires Inv(s) && Enabled(s, Start(count))
    ensures Inv(Next(s, Start(count)))
  {}

  lemma PublishKeeps(s: State)
    requires Inv(s) && s.caller.Publish?
    ensures Inv(CallerNext(s))
  {
    hide CountOpen, CountWorking;
    CountWorkingZero(s.mode);
    CallerOnlyKeeps(s, CallerNext(s));
    PublishKeepsTickets(s);
    hide History, Tickets, Threads;
    CountOpenEnds(s.tickets);
  }

  lemma PublishKeepsTickets(s: State)
    requires Threads(s) && Shared(s) && Tickets(s) && s.caller.Publish?
    ensures Tickets(CallerNext(s))
    ensures forall t | 0 <= t < |s.tickets| :: s.tickets[t].Free?
  {
    hide CountOpen, CountWorking;
    CountWorkingZero(s.mode);
  }

  /** A step that moves only the caller, and shared words no thread is using, keeps the rest. */
  lemma CallerOnlyKeeps(s: State, s': State)
    requires Threads(s) && History(s) && !s.caller.Idle? && !s.caller.Draining? && !s'.caller.Draining?
    requires (InRun(s.caller) && !InRun(s'.caller)) || s.generation != s'.generation ==> s.active == 0
    requires s'.caller.Publish? ==> s'.caller.k <= 5
    requires s'.caller.Idle? ==> forall t | 0 <= t < |s.tickets| :: s.tickets[t].Done?
    requires s' == s.(caller := s'.caller, job := s'.job, next := s'.next, chunks := s'.chunks,
                      remaining := s'.remaining, generation := s'.generation)
    ensures Threads(s') && History(s')
  {
    hide CountWorking;
    CountWorkingZero(s.mode);
  }

  lemma NotifyReadyKeeps(s: State)
    requires Inv(s) && s.caller.NotifyReady?
    ensures Inv(CallerNext(s))
  {
    hide CountOpen, CountWorking, Threads;
    InvParts(s);
    NotifyReadyKeepsThreads(s);
    NotifyReadyKeepsTickets(s);
    hide Tickets;
  }

  lemma NotifyReadyKeepsThreads(s: State)
    requires Threads(s) && s.caller.NotifyReady?
    ensures Threads(CallerNext(s))
  {
    hide CountWorking;
    CountWorkingSame(s.mode, CallerNext(s).mode);
  }

  lemma NotifyReadyKeepsTickets(s: State)
    requires Threads(s) && Tickets(s) && s.caller.NotifyReady?
    ensures Tickets(CallerNext(s))
  {
    hide CountOpen, CountWorking;
  }

  lemma WaitKeeps(s: State)
    requires Inv(s) && Waits(s.caller) && !s.caller.Asleep?
    ensures Inv(CallerNext(s))
  {
    CallerOnlyKeeps(s, CallerNext(s));
    WaitKeepsShared(s);
    WaitKeepsTickets(s);
  }

  lemma WaitKeepsShared(s: State)
    requires Inv(s) && Waits(s.caller) && !s.caller.Asleep?
    ensures Shared(CallerNext(s))
  {
    if s.caller.PredRemaining? && s.remaining != 0 { SomeoneWorks(s); }
    hide History, Tickets, CountOpen, CountWorking;
  }

  lemma WaitKeepsTickets(s: State)
    requires Inv(s) && Waits(s.caller) && !s.caller.Asleep?
    ensures Tickets(CallerNext(s))
  {
    hide History, CountOpen, CountWorking;
    CountOpenEnds(s.tickets);
  }

  /** An unfinished ticket is in the hands of a worker once the caller has left drain(). */
  lemma SomeoneWorks(s: State)
    requires Inv(s) && s.caller.PredRemaining? && s.remaining != 0
    ensures s.active > 0
  {
    hide History, CountOpen, CountWorking;
    CountOpenEnds(s.tickets);
    var t :| 0 <= t < |s.tickets| && !s.tickets[t].Done?;
    assert Working(s.mode[s.tickets[t].owner]);
    CountWorkingZero(s.mode);
  }

  lemma ReadyKeeps(s: State, i: nat)
    requires Inv(s) && Enabled(s, WorkerStep(i)) && s.mode[i].Ready?
    ensures Inv(WorkerNext(s, i))
  {
    hide CountOpen, CountWorking, Tickets, Threads;
    InvParts(s);
    ReadyKeepsThreads(s, i);
    ReadyKeepsTickets(s, i);
  }

  lemma ReadyKeepsThreads(s: State, i: nat)
    requires Threads(s) && Shared(s) && Enabled(s, WorkerStep(i)) && s.mode[i].Ready?
    ensures Threads(WorkerNext(s, i)) && WorkerNext(s, i).active >= s.active
  {
    hide CountOpen, CountWorking;
    CountWorkingUpdate(s.mode, i, WorkerNext(s, i).mode[i]);
  }

  lemma ReadyKeepsTickets(s: State, i: nat)
    requires Inv(s) && Enabled(s, WorkerStep(i)) && s.mode[i].Ready?
    ensures Tickets(WorkerNext(s, i))
  {
    hide CountOpen, CountWorking, History;
  }

  lemma LeavingKeeps(s: State, i: nat)
    requires Inv(s) && Enabled(s, WorkerStep(i)) && s.mode[i].Leaving?
    ensures Inv(WorkerNext(s, i))
  {
    hide CountOpen, CountWorking, Threads, Tickets, Shared;
    InvParts(s);
    LeavingKeepsThreads(s, i);
    LeavingKeepsTickets(s, i);
  }

  lemma LeavingKeepsThreads(s: State, i: nat)
    requires Threads(s) && Shared(s) && Enabled(s, WorkerStep(i)) && s.mode[i].Leaving?
    ensures Threads(WorkerNext(s, i)) && Shared(WorkerNext(s, i))
  {
    hide CountOpen, CountWorking;
    CountWorkingUpdate(s.mode, i, Ready);
  }

  lemma LeavingKeepsTickets(s: State, i: nat)
    requires Threads(s) && Tickets(s) && Enabled(s, WorkerStep(i)) && s.mode[i].Leaving?
    ensures Tickets(WorkerNext(s, i))
  {
    hide CountOpen, CountWorking;
  }

  lemma DrawKeeps(s: State, th: nat)
    requires Inv(s) && th <= N(s) && CanDrain(s, th) && s.pos[th].Draw?
    ensures Inv(DrainNext(s, th))
  {
    hide CountOpen, CountWorking, Threads, Tickets, Shared;
    InvParts(s);
    DrawKeepsTickets(s, th);
    DrawKeepsThreads(s, th);
  }

  lemma DrawKeepsThreads(s: State, th: nat)
    requires Threads(s) && Shared(s) && Tickets(s) && th <= N(s) && CanDrain(s, th) && s.pos[th].Draw?
    ensures Threads(DrainNext(s, th)) && Shared(DrainNext(s, th))
    ensures s.next < |s.tickets| ==> s.tickets[s.next].Free?
  {
    hide CountOpen, CountWorking;
    DrainsCurrent(s, th);
    if s.next < |s.tickets| { CountOpenUpdate(s.tickets, s.next, Held(th)); }
  }

  lemma DrawKeepsTickets(s: State, th: nat)
    requires Threads(s) && Tickets(s) && th <= N(s) && CanDrain(s, th) && s.pos[th].Draw?
    ensures Tickets(DrainNext(s, th))
  {
    hide CountOpen, CountWorking;
  }

  lemma CheckKeeps(s: State, th: nat)
    requires Inv(s) && th <= N(s) && CanDrain(s, th) && s.pos[th].Check?
    ensures Inv(DrainNext(s, th))
  {
    hide CountOpen, CountWorking, Threads, Tickets, Shared;
    InvParts(s);
    DrainsCurrent(s, th);
    CheckKeepsTickets(s, th);
    CheckKeepsThreads(s, th);
  }

  lemma CheckKeepsThreads(s: State, th: nat)
    requires Threads(s) && Shared(s) && Tickets(s) && th <= N(s) && CanDrain(s, th) && s.pos[th].Check?
    ensures Threads(DrainNext(s, th)) && Shared(DrainNext(s, th))
  {
    hide CountOpen, CountWorking, Tickets;
    CheckDrawn(s, th);
    if th < N(s) { CountWorkingUpdate(s.mode, th, Leaving); }
  }

  /** A thread that compares its ticket with chunks_ has drawn it. */
  lemma CheckDrawn(s: State, th: nat)
    requires Threads(s) && Tickets(s) && th <= N(s) && s.pos[th].Check?
    ensures s.pos[th].t < s.next
  {
    DrainsCurrent(s, th);
    hide Threads;
  }

  lemma CheckKeepsTickets(s: State, th: nat)
    requires Threads(s) && Shared(s) && Tickets(s) && th <= N(s) && CanDrain(s, th) && s.pos[th].Check?
    ensures Tickets(DrainNext(s, th))
  {
    hide CountOpen, CountWorking;
  }

  lemma ServeKeeps(s: State, th: nat)
    requires Inv(s) && th <= N(s) && CanDrain(s, th) && s.pos[th].Serve?
    ensures Inv(DrainNext(s, th))
  {
    hide CountOpen, CountWorking, Threads, Tickets, Shared, History;
    InvParts(s);
    ServeKeepsHistory(s, th);
    ServeKeepsTickets(s, th);
    ServeKeepsThreads(s, th);
  }

  lemma ServeKeepsThreads(s: State, th: nat)
    requires Threads(s) && Shared(s) && Tickets(s) && th <= N(s) && CanDrain(s, th) && s.pos[th].Serve?
    ensures Threads(DrainNext(s, th)) && Shared(DrainNext(s, th))
  {
    hide CountOpen, CountWorking, Tickets;
    ServesHeld(s, th);
    CountOpenUpdate(s.tickets, s.pos[th].t, Served(th));
  }

  lemma ServesHeld(s: State, th: nat)
    requires Threads(s) && Tickets(s) && th <= N(s) && s.pos[th].Serve?
    ensures s.pos[th].t < |s.tickets| && s.tickets[s.pos[th].t] == Held(th)
  {
    DrainsCurrent(s, th);
    hide Threads;
  }

  lemma ServeKeepsTickets(s: State, th: nat)
    requires Threads(s) && Tickets(s) && th <= N(s) && CanDrain(s, th) && s.pos[th].Serve?
    ensures Tickets(DrainNext(s, th))
  {
    hide CountOpen, CountWorking;
  }

  lemma ServeKeepsHistory(s: State, th: nat)
    requires Inv(s) && th <= N(s) && CanDrain(s, th) && s.pos[th].Serve?
    ensures History(DrainNext(s, th))
  {
    hide CountOpen, CountWorking, Shared, Threads, Tickets;
    InvParts(s);
    var t := s.pos[th].t;
    DrainsCurrent(s, th);
    ServesHeld(s, th);
    assert s.served[s.cur][t] == 0;
  }

  lemma SubKeeps(s: State, th: nat)
    requires Inv(s) && th <= N(s) && CanDrain(s, th) && s.pos[th].Sub?
    ensures Inv(DrainNext(s, th))
  {
    hide CountOpen, CountWorking, Threads, Tickets, Shared;
    InvParts(s);
    SubServed(s, th);
    SubKeepsTickets(s, th);
    SubKeepsThreads(s, th);
  }

  lemma SubKeepsThreads(s: State, th: nat)
    requires Threads(s) && Shared(s) && Tickets(s) && th <= N(s) && CanDrain(s, th) && s.pos[th].Sub?
    ensures Threads(DrainNext(s, th)) && Shared(DrainNext(s, th))
  {
    hide CountOpen, CountWorking, Tickets;
    SubServed(s, th);
    CountOpenUpdate(s.tickets, s.pos[th].t, Done);
  }

  lemma SubServed(s: State, th: nat)
    requires Threads(s) && Tickets(s) && th <= N(s) && s.pos[th].Sub?
    ensures s.pos[th].t < |s.tickets| && s.tickets[s.pos[th].t] == Served(th)
    ensures InRun(s.caller)
  {
    DrainsCurrent(s, th);
    hide Threads;
  }

  lemma SubKeepsTickets(s: State, th: nat)
    requires Threads(s) && Tickets(s) && th <= N(s) && CanDrain(s, th) && s.pos[th].Sub?
    ensures Tickets(DrainNext(s, th))
  {
    hide CountOpen, CountWorking;
  }

  lemma NotifyKeeps(s: State, th: nat)
    requires Inv(s) && th <= N(s) && CanDrain(s, th) && s.pos[th].Notify?
    ensures Inv(DrainNext(s, th))
  {
    hide CountOpen, CountWorking, Threads, Tickets;
    InvParts(s);
    DrainsCurrent(s, th);
    NotifyKeepsThreads(s, th);
  }

  lemma NotifyKeepsThreads(s: State, th: nat)
    requires Threads(s) && Tickets(s) && th <= N(s) && CanDrain(s, th) && s.pos[th].Notify?
    ensures Threads(DrainNext(s, th)) && Tickets(DrainNext(s, th))
  {
    hide CountOpen, CountWorking;
  }

  lemma WakeKeeps(s: State, a: Action)
    requires Inv(s) && Enabled(s, a) && (a.WakeCaller? || a.WakeWorker?)
    ensures Inv(Next(s, a))
  {
    hide CountOpen, CountWorking, Threads, Tickets;
    InvParts(s);
    WakeKeepsThreads(s, a);
  }

  lemma WakeKeepsThreads(s: State, a: Action)
    requires Threads(s) && Tickets(s) && Enabled(s, a) && (a.WakeCaller? || a.WakeWorker?)
    ensures Threads(Next(s, a)) && Tickets(Next(s, a))
  {
    hide CountOpen, CountWorking;
    if a.WakeWorker? { CountWorkingUpdate(s.mode, a.i, Ready); }
  }

  lemma DrainKeeps(s: State, th: nat)
    requires Inv(s) && th <= N(s) && CanDrain(s, th)
    ensures Inv(DrainNext(s, th))
  {
    assert Shape(s);
    hide Inv;
    match s.pos[th]
    case Draw => DrawKeeps(s, th);
    case Check(_) => CheckKeeps(s, th);
    case Serve(_) => ServeKeeps(s, th);
    case Sub(_) => SubKeeps(s, th);
    case Notify => NotifyKeeps(s, th);
  }

  lemma NextKeeps(s: State, a: Action)
    requires Inv(s) && Enabled(s, a)
    ensures Inv(Next(s, a))
  {
    assert Shape(s);
    hide Inv, DrainNext;
    match a
    case Start(count) => StartKeeps(s, count);
    case CallerStep =>
      if s.caller.Publish? { PublishKeeps(s); }
      else if s.caller.NotifyReady? { NotifyReadyKeeps(s); }
      else if s.caller.Draining? { DrainKeeps(s, N(s)); }
      else { WaitKeeps(s); }
    case WorkerStep(i) =>
      if s.mode[i].Ready? { ReadyKeeps(s, i); }
      else if s.mode[i].Leaving? { LeavingKeeps(s, i); }
      else { DrainKeeps(s, i); }
    case WakeCaller => WakeKeeps(s, a);
    case WakeWorker(_) => WakeKeeps(s, a);
  }

  /** Serving keeps the length of every job's history; starting a job appends one. */
  lemma NextJobs(s: State, a: Action)
    requires Inv(s) && Enabled(s, a)
    ensures Next(s, a).cur == s.cur + |Jobs([a])|
    ensures forall j: nat | 1 <= j <= s.cur :: j in Next(s, a).served && |Next(s, a).served[j]| == |s.served[j]|
    ensures a.Start? ==> |Next(s, a).served[s.cur + 1]| == a.count
  {
    hide Threads, Tickets, Shared, CountOpen, CountWorking;
    InvParts(s);
    NextKeeps(s, a);
  }

  lemma {:induction false} RunKeeps(s: State, acts: seq<Action>, s': State)
    requires Inv(s) && Run(s, acts, s')
    ensures Inv(s')
    ensures s'.cur == s.cur + |Jobs(acts)|
    ensures forall j: nat | 1 <= j <= s.cur :: j in s.served && j in s'.served && |s'.served[j]| == |s.served[j]|
    ensures forall k: nat | k < |Jobs(acts)| ::
              s.cur + k + 1 in s'.served && |s'.served[s.cur + k + 1]| == Jobs(acts)[k]
    decreases |acts|
  {
    hide Threads, Shared, Tickets, Next;
    if acts != [] {
      var a, m := acts[0], Next(s, acts[0]);
      NextKeeps(s, a);
      NextJobs(s, a);
      RunKeeps(m, acts[1..], s');
      assert Jobs([a]) == if a.Start? then [a.count] else [];
      forall k: nat | k < |Jobs(acts)|
        ensures s.cur + k + 1 in s'.served && |s'.served[s.cur + k + 1]| == Jobs(acts)[k]
      {
        if a.Start? && k > 0 {
          assert Jobs(acts)[k] == Jobs(acts[1..])[k - 1];
          assert m.cur + (k - 1) + 1 == s.cur + k + 1;
        }
      }
    }
  }

  /** A job that run() has returned from has had each index served once. */
  lemma ReturnedServed(s: State, j: nat)
    requires History(s) && Returned(s, j)
    ensures j in s.served && AllOnce(s.served[j]) && 1 <= j <= s.cur
  {
    hide AllOnce;
  }

  lemma ServesApart(s: State, i: nat, k: nat)
    requires Threads(s) && Tickets(s) && i < k <= N(s) && s.pos[i].Serve? && s.pos[k].Serve?
    ensures s.pos[i].t != s.pos[k].t
  {
    DrainsCurrent(s, i);
    hide Threads, Returned;
    assert s.tickets[s.pos[i].t] == Held(i) && s.tickets[s.pos[k].t] == Held(k);
  }

  /** For every number of workers and every schedule of any sequence of jobs: the job that run()
      has returned from has had each of its row indices served exactly once, and every thread that
      can draw a ticket, read chunks_ or serve does so for the job that run() is still waiting for. */
  lemma PoolSafety(n: nat, acts: seq<Action>, s: State)
    requires Run(Init(n), acts, s)
    ensures s.cur == |Jobs(acts)|
    ensures forall j: nat | Returned(s, j) ::
              j in s.served && |s.served[j]| == Jobs(acts)[j - 1] && AllOnce(s.served[j])
    ensures Shape(s)
    ensures forall i: nat | i <= N(s) && !s.pos[i].Out? ::
              InRun(s.caller) && s.work[i] == s.cur && !Returned(s, s.work[i])
    ensures forall i: nat, k: nat | i < k <= N(s) && s.pos[i].Serve? && s.pos[k].Serve? :: s.pos[i].t != s.pos[k].t
  {
    hide Inv, Threads, Shared, Tickets, History, Run, Returned, AllOnce, InRun, Jobs;
    InitKeeps(n);
    RunKeeps(Init(n), acts, s);
    InvParts(s);
    forall j: nat | Returned(s, j) ensures j in s.served && AllOnce(s.served[j]) && 1 <= j <= s.cur {
      ReturnedServed(s, j);
    }
    forall j: nat | Returned(s, j) ensures |s.served[j]| == Jobs(acts)[j - 1] {
      assert 0 + (j - 1) + 1 in s.served;
    }
    forall i: nat | i <= N(s) && !s.pos[i].Out?
      ensures InRun(s.caller) && s.work[i] == s.cur && !Returned(s, s.work[i])
    {
      DrainsCurrent(s, i);
    }
    forall i: nat, k: nat | i < k <= N(s) && s.pos[i].Serve? && s.pos[k].Serve? ensures s.pos[i].t != s.pos[k].t {
      ServesApart(s, i, k);
    }
  }
}
