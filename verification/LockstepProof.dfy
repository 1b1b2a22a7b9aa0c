/** The ranks stay in step: one common frontier explains where every rank stands, and the tables and
    paths are the ones decided with no protocol at all. */
module LockstepProof {
  import opened Options
  import opened Lockstep

  /* ------------------------------------------------------- what a point in a call implies */

  ghost predicate AttnFacts(g: Group, k: nat, t: Tables, pc: Pc)
    requires k < |g.calls|
  {
    var m, gate := g.calls[k].rows, g.sees(0, k).gate;
    match pc
    case AttnData(known) => gate && !Off(g.calls[k], t) && known == (m in t.fp8)
    case AttnScales(known) => gate && !Off(g.calls[k], t) && known == (m in t.fp8)
    case AttnRows => gate && m !in t.fp8
    case AttnAgree => gate && m !in t.fp8
    case AttnStock => !gate || Off(g.calls[k], t)
    case _ => false
  }

  ghost predicate FirstFacts(g: Group, k: nat, pc: Pc) {
    match pc
    case FirstRows => true
    case AgreeRef(mode) => Tried(g, k, mode)
    case AgreeRouted(mode) => Tried(g, k, mode) && AllRefs(g, k)
    case FirstTopk(mode) => Tried(g, k, mode) && RanOn(g, k, mode)
    case AgreeSame(mode) => Tried(g, k, mode) && RanOn(g, k, mode)
    case AgreeQuant(mode) => RouterOf(g, k) == Some(mode)
    case AgreeClean(mode) => RouterOf(g, k) == Some(mode) && AllQuantised(g, k)
    case FirstData(mode) => Ready(g, k, mode)
    case FirstScales(mode) => Ready(g, k, mode)
    case AgreeVerdict(router) =>
      if router.Some? then Ready(g, k, router.value) else Verdicts(g, k) == Some(Verdict(false, None))
    case _ => false
  }

  /** The padded router is tried only after every rank ran the shard router and one saw a difference. */
  ghost predicate Tried(g: Group, k: nat, mode: Mode) {
    mode.Padded? ==> !RoutesOn(g, k, OnShard) && AllRouted(g, k, OnShard)
  }

  ghost predicate AllRefs(g: Group, k: nat) { forall r: nat | r < g.world :: g.sees(r, k).refRouted }

  ghost predicate AllSame(g: Group, k: nat, mode: Mode) { forall r: nat | r < g.world :: Bit(g.sees(r, k).same, mode) }

  /** Every rank has the stock routing and its own, in this mode. */
  ghost predicate RanOn(g: Group, k: nat, mode: Mode) { AllRefs(g, k) && AllRouted(g, k, mode) }

  ghost predicate Ready(g: Group, k: nat, mode: Mode) {
    RouterOf(g, k) == Some(mode) && AllQuantised(g, k) && AllClean(g, k)
  }

  ghost predicate MoeFacts(g: Group, k: nat, t: Tables, pc: Pc)
    requires k < |g.calls|
  {
    var m, gate := g.calls[k].rows, g.sees(0, k).gate;
    if pc.MoeStock? then !gate || Off(g.calls[k], t) || (m in t.moe8 && !AllClean(g, k))
    else if pc.SteadyTopk? then gate && m in t.moe8 && t.moe8[m].ok
    else if pc.SteadyData? || pc.SteadyScales? then
      gate && m in t.moe8 && t.moe8[m].ok && AllClean(g, k)
    else gate && m !in t.moe8 && FirstFacts(g, k, pc)
  }

  ghost predicate EngramFacts(g: Group, k: nat, t: Tables, pc: Pc)
    requires k < |g.calls| && g.calls[k].Engram?
  {
    var c := g.calls[k];
    match pc
    case LookupReduce => c.partial
    case WkvCheck => c.checked && (c.hash, c.rows) !in t.wkv
    case WkvAgree => c.checked && (c.hash, c.rows) !in t.wkv
    case WkvFull => !c.checked || ((c.hash, c.rows) in t.wkv && !t.wkv[(c.hash, c.rows)])
    case _ => false
  }

  ghost predicate Inside(g: Group, k: nat, t: Tables, pc: Pc)
    requires k < |g.calls|
  {
    if pc.ReduceOut? then !g.calls[k].Engram? && t == Decided(g, k + 1) && pc.path == PathOf(g, k)
    else t == Decided(g, k) && match g.calls[k]
      case Attn(_) => AttnFacts(g, k, t, pc)
      case Moe(_) => MoeFacts(g, k, t, pc)
      case Engram(_, _, _, _) => EngramFacts(g, k, t, pc)
  }

  /** A rank that stands where the decisions say it should. */
  ghost predicate Sound(g: Group, x: Rank) {
    && x.call <= |g.calls| && x.paths == Paths(g, x.call) && (x.posted ==> !x.pc.Start?)
    && (if x.pc.Start? then x.tables == Decided(g, x.call) else x.call < |g.calls| && Inside(g, x.call, x.tables, x.pc))
  }

  /* --------------------------------------------------------------- entering and meeting */

  ghost predicate VotesAre(g: Group, k: nat, pc: Pc, all: bool) {
    all == forall r: nat | r < g.world :: Vote(pc, g.sees(r, k))
  }

  /** A point reached in call k, or the return from it. */
  ghost predicate Lands(g: Group, k: nat, t: Tables, pc: Pc)
    requires k < |g.calls|
  {
    if pc.Return? then t == Decided(g, k + 1) && pc.path == PathOf(g, k) else !pc.Start? && Inside(g, k, t, pc)
  }

  lemma EnterLands(g: Group, k: nat, r: nat)
    requires k < |g.calls| && Safe(g, k) && r < g.world
    ensures Enter(g.calls[k], Decided(g, k), g.sees(r, k).gate) == Enter(g.calls[k], Decided(g, k), g.sees(0, k).gate)
    ensures Lands(g, k, Decided(g, k), Enter(g.calls[k], Decided(g, k), g.sees(r, k).gate))
  {}

  lemma MeetLandsAttn(g: Group, k: nat, t: Tables, pc: Pc, all: bool)
    requires k < |g.calls| && g.calls[k].Attn? && !pc.ReduceOut? && Inside(g, k, t, pc) && VotesAre(g, k, pc, all)
    requires g.world > 0
    ensures Lands(g, k, Record(pc, g.calls[k], t, all), After(pc, g.calls[k], t, all))
  {}

  lemma MeetLandsEngram(g: Group, k: nat, t: Tables, pc: Pc, all: bool)
    requires k < |g.calls| && g.calls[k].Engram? && Inside(g, k, t, pc) && VotesAre(g, k, pc, all) && g.world > 0
    ensures Lands(g, k, Record(pc, g.calls[k], t, all), After(pc, g.calls[k], t, all))
  {}

  lemma MeetLandsSteady(g: Group, k: nat, t: Tables, pc: Pc, all: bool)
    requires k < |g.calls| && g.calls[k].Moe? && Inside(g, k, t, pc) && VotesAre(g, k, pc, all) && g.world > 0
    requires pc.MoeStock? || pc.SteadyTopk? || pc.SteadyData? || pc.SteadyScales?
    ensures Lands(g, k, Record(pc, g.calls[k], t, all), After(pc, g.calls[k], t, all))
  {
    MoeVotes(g, k, pc, all);
    hide RouterOf, RoutesOn, Verdicts, AllClean, VotesAre, Vote;
  }

  lemma RouteParts(g: Group, k: nat, mode: Mode)
    ensures RoutesOn(g, k, mode) <==> RanOn(g, k, mode) && AllSame(g, k, mode)
  {}

  /** The votes up to the router, by name. */
  lemma RouteVotes(g: Group, k: nat, pc: Pc, all: bool)
    requires VotesAre(g, k, pc, all)
    ensures pc.AgreeRef? ==> all == AllRefs(g, k)
    ensures pc.AgreeRouted? ==> all == AllRouted(g, k, pc.mode)
    ensures pc.AgreeSame? ==> all == AllSame(g, k, pc.mode)
  {}

  /** From the gathered rows to a router, or to the verdict that there is none. */
  lemma FirstRoutes(g: Group, k: nat, c: Call, t: Tables, pc: Pc, all: bool)
    requires FirstFacts(g, k, pc) && VotesAre(g, k, pc, all) && g.world > 0
    requires pc.FirstRows? || pc.AgreeRef? || pc.AgreeRouted? || pc.FirstTopk? || pc.AgreeSame?
    ensures FirstFacts(g, k, After(pc, c, t, all))
  {
    hide AllRefs, AllRouted, AllSame, RoutesOn, VotesAre, AllQuantised, AllClean, AllPass;
    RouteParts(g, k, OnShard);
    RouteParts(g, k, Padded);
    RouteVotes(g, k, pc, all);
    if !pc.FirstRows? { assert pc.mode == OnShard || pc.mode == Padded; }
  }

  /** The votes from the router on, by name. */
  lemma MoeVotes(g: Group, k: nat, pc: Pc, all: bool)
    requires VotesAre(g, k, pc, all) && g.world > 0
    ensures pc.AgreeQuant? ==> all == AllQuantised(g, k)
    ensures pc.AgreeClean? || pc.SteadyTopk? ==> all == AllClean(g, k)
    ensures pc.AgreeVerdict? ==> all == (pc.router.Some? && AllPass(g, k))
  {
    assert Vote(pc, g.sees(0, k)) || !Vote(pc, g.sees(0, k));
  }

  /** From the router to the last vote. */
  lemma FirstQuantises(g: Group, k: nat, t: Tables, pc: Pc, all: bool)
    requires k < |g.calls| && g.calls[k].Moe? && Inside(g, k, t, pc) && VotesAre(g, k, pc, all) && g.world > 0
    requires pc.AgreeQuant? || pc.AgreeClean? || pc.FirstData? || pc.FirstScales?
    ensures Lands(g, k, Record(pc, g.calls[k], t, all), After(pc, g.calls[k], t, all))
  {
    hide RouterOf, RoutesOn, Tried, AllPass, AllQuantised, AllClean, VotesAre, Vote;
    MoeVotes(g, k, pc, all);
  }

  lemma FirstDecides(g: Group, k: nat, t: Tables, pc: Pc, all: bool)
    requires k < |g.calls| && g.calls[k].Moe? && Inside(g, k, t, pc) && VotesAre(g, k, pc, all) && g.world > 0
    requires pc.AgreeVerdict?
    ensures Lands(g, k, Record(pc, g.calls[k], t, all), After(pc, g.calls[k], t, all))
  {
    hide RouterOf, RoutesOn, Tried, AllQuantised, AllClean, AllPass, VotesAre, Vote;
    MoeVotes(g, k, pc, all);
  }

  lemma MeetLandsMoe(g: Group, k: nat, t: Tables, pc: Pc, all: bool)
    requires k < |g.calls| && g.calls[k].Moe? && !pc.ReduceOut? && Inside(g, k, t, pc) && VotesAre(g, k, pc, all)
    requires g.world > 0
    ensures Lands(g, k, Record(pc, g.calls[k], t, all), After(pc, g.calls[k], t, all))
  {
    hide RouterOf, RoutesOn, Verdicts, VotesAre, Decided, PathOf, Vote;
    if pc.MoeStock? || pc.SteadyTopk? || pc.SteadyData? || pc.SteadyScales? { MeetLandsSteady(g, k, t, pc, all); }
    else if pc.AgreeQuant? || pc.AgreeClean? || pc.FirstData? || pc.FirstScales? { FirstQuantises(g, k, t, pc, all); }
    else if pc.AgreeVerdict? { FirstDecides(g, k, t, pc, all); }
    else { FirstRoutes(g, k, g.calls[k], t, pc, all); }
  }

  lemma MeetLands(g: Group, k: nat, t: Tables, pc: Pc, all: bool)
    requires k < |g.calls| && !pc.Start? && Inside(g, k, t, pc) && VotesAre(g, k, pc, all) && g.world > 0
    ensures Lands(g, k, Record(pc, g.calls[k], t, all), After(pc, g.calls[k], t, all))
  {
    if !pc.ReduceOut? {
      match g.calls[k]
      case Attn(_) => MeetLandsAttn(g, k, t, pc, all);
      case Moe(_) => MeetLandsMoe(g, k, t, pc, all);
      case Engram(_, _, _, _) => MeetLandsEngram(g, k, t, pc, all);
    }
  }

  lemma LandsSound(g: Group, x: Rank, pc: Pc)
    requires x.call < |g.calls| && x.paths == Paths(g, x.call) && Lands(g, x.call, x.tables, pc)
    ensures Sound(g, Arrive(x, pc))
  {}

  /* --------------------------------------------------------------- the common frontier */

  /** Where rank r stops next if it runs on alone: at a collective, or at the end of the calls. */
  ghost function Settle(g: Group, r: nat, x: Rank): Rank
    decreases |g.calls| - x.call, if x.pc.Start? then 1 else 0
  {
    if x.pc.Start? && x.call < |g.calls| then Settle(g, r, Entered(g, r, x)) else x.(posted := false)
  }

  lemma {:induction false} SettleCommon(g: Group, r: nat, x: Rank)
    requires AllSafe(g) && r < g.world && Sound(g, x) && !x.posted
    ensures Settle(g, r, x) == Settle(g, 0, x) && Sound(g, Settle(g, r, x))
    ensures var y := Settle(g, r, x); y.met == x.met && y.tables == x.tables && x.paths <= y.paths
    ensures var y := Settle(g, r, x); y.pc.Start? ==> y.call == |g.calls|
    decreases |g.calls| - x.call, if x.pc.Start? then 1 else 0
  {
    if x.pc.Start? && x.call < |g.calls| {
      EnterLands(g, x.call, r);
      EnterLands(g, x.call, 0);
      LandsSound(g, x, Enter(g.calls[x.call], x.tables, g.sees(r, x.call).gate));
      SettleCommon(g, r, Entered(g, r, x));
    }
  }

  /** Every rank is on its own way to the same frontier f. */
  ghost predicate Locked(g: Group, s: State, f: Rank) {
    && |s| == g.world && g.world > 0 && Sound(g, f) && (f.pc.Start? ==> f.call == |g.calls|)
    && forall r: nat | r < g.world :: Sound(g, s[r]) && Settle(g, r, s[r].(posted := false)) == f
  }

  lemma BeginKeeps(g: Group, r: nat, s: State, s': State, f: Rank)
    requires AllSafe(g) && Locked(g, s, f) && Begin(g, r, s, s')
    ensures Locked(g, s', f)
  {
    EnterLands(g, s[r].call, r);
    LandsSound(g, s[r], Enter(g.calls[s[r].call], s[r].tables, g.sees(r, s[r].call).gate));
    assert s[r].(posted := false) == s[r];
    assert s'[r].(posted := false) == s'[r];
  }

  lemma PostKeeps(g: Group, r: nat, s: State, s': State, f: Rank)
    requires Locked(g, s, f) && Post(g, r, s, s')
    ensures Locked(g, s', f)
  {
    assert s'[r].(posted := false) == s[r].(posted := false);
  }

  lemma PostedAtFrontier(g: Group, s: State, f: Rank, r: nat)
    requires Locked(g, s, f) && r < g.world && s[r].posted
    ensures s[r] == f.(posted := true) && !f.pc.Start? && f.call < |g.calls|
  {}

  lemma MeetKeeps(g: Group, s: State, s': State, f: Rank)
    requires AllSafe(g) && Locked(g, s, f) && Meet(g, s, s')
    ensures exists f' :: Locked(g, s', f')
  {
    forall r: nat | r < g.world ensures s[r] == f.(posted := true) && !f.pc.Start? && f.call < |g.calls| {
      PostedAtFrontier(g, s, f, r);
    }
    var all := AllVote(g, s);
    assert s[0].pc == f.pc;
    var x := Met(g, f.(posted := true), all);
    var c := g.calls[f.call];
    assert VotesAre(g, f.call, f.pc, all) by {
      assert forall r: nat | r < g.world :: Vote(s[r].pc, g.sees(r, s[r].call)) == Vote(f.pc, g.sees(r, f.call));
    }
    MeetLands(g, f.call, f.tables, f.pc, all);
    var done := f.(posted := true, met := Issued(g, f.(posted := true)), tables := Record(f.pc, c, f.tables, all));
    LandsSound(g, done, After(f.pc, c, f.tables, all));
    assert Sound(g, x) && !x.posted;
    forall r: nat | r < g.world ensures s'[r] == x && Settle(g, r, x) == Settle(g, 0, x) && Sound(g, Settle(g, 0, x)) {
      SettleCommon(g, r, x);
    }
    SettleCommon(g, 0, x);
    assert x.(posted := false) == x;
    assert Locked(g, s', Settle(g, 0, x));
  }

  lemma InitLocked(g: Group, s: State)
    requires AllSafe(g) && Init(g, s)
    ensures exists f :: Locked(g, s, f)
  {
    forall r: nat | r < g.world ensures Settle(g, r, s[0]) == Settle(g, 0, s[0]) && s[r] == s[0] {
      SettleCommon(g, r, s[0]);
    }
    SettleCommon(g, 0, s[0]);
    assert s[0].(posted := false) == s[0];
    assert Locked(g, s, Settle(g, 0, s[0]));
  }

  function Last(run: seq<State>): State
    requires |run| > 0
  {
    run[|run| - 1]
  }

  lemma NextKeeps(g: Group, s: State, s': State, f: Rank)
    requires AllSafe(g) && Locked(g, s, f) && Next(g, s, s')
    ensures exists f' :: Locked(g, s', f')
  {
    hide Locked, Begin, Post, Meet;
    if Meet(g, s, s') { MeetKeeps(g, s, s', f); return; }
    var r: nat :| Begin(g, r, s, s') || Post(g, r, s, s');
    if Begin(g, r, s, s') { BeginKeeps(g, r, s, s', f); } else { PostKeeps(g, r, s, s', f); }
    assert Locked(g, s', f);
  }

  lemma {:induction false} RunLocked(g: Group, run: seq<State>)
    requires AllSafe(g) && Run(g, run)
    ensures exists f :: Locked(g, Last(run), f)
  {
    hide Locked, Next, AllSafe;
    if |run| == 1 { assert Last(run) == run[0]; InitLocked(g, run[0]); return; }
    var n := |run| - 1;
    var before := run[..n];
    assert before[n - 1] == run[n - 1];
    RunLocked(g, before);
    var f :| Locked(g, run[n - 1], f);
    assert Last(run) == run[n];
    NextKeeps(g, run[n - 1], run[n], f);
  }

  /** Every rank's tables, the collectives two ranks have posted, and the paths they took agree, and
      they are the ones decided with no protocol. */
  ghost predicate InStep(g: Group, s: State) {
    && |s| == g.world
    && (forall r: nat | r < g.world :: s[r].call <= |g.calls| && s[r].paths == Paths(g, s[r].call))
    && (forall r: nat | r < g.world && s[r].pc.Start? :: s[r].tables == Decided(g, s[r].call))
    && (forall a: nat, b: nat | a < g.world && b < g.world ::
          && s[a].tables == s[b].tables && s[a].met == s[b].met
          && (s[a].posted && s[b].posted ==>
                Issued(g, s[a]) == Issued(g, s[b]) && s[a].call == s[b].call && s[a].pc == s[b].pc))
  }

  lemma LockedInStep(g: Group, s: State, f: Rank)
    requires AllSafe(g) && Locked(g, s, f)
    ensures InStep(g, s)
  {
    forall r: nat | r < g.world
      ensures s[r].tables == f.tables && s[r].met == f.met && (s[r].posted ==> s[r] == f.(posted := true))
    {
      SettleCommon(g, r, s[r].(posted := false));
    }
  }

  /** No rank is alone in a collective, under every schedule, run of chunks and assignment of outcomes. */
  lemma CollectiveLockstep(g: Group, run: seq<State>)
    requires AllSafe(g) && Run(g, run)
    ensures forall i: nat | i < |run| :: InStep(g, run[i])
  {
    forall i: nat | i < |run| ensures InStep(g, run[i]) {
      var before := run[..i + 1];
      assert before[|before| - 1] == run[i];
      RunLocked(g, before);
      var f :| Locked(g, run[i], f);
      LockedInStep(g, run[i], f);
    }
  }

  /* ------------------------------------------------------------------------- progress */

  ghost predicate Finished(g: Group, s: State) {
    |s| == g.world && forall r: nat | r < g.world :: s[r].pc.Start? && s[r].call == |g.calls|
  }

  /** The group never stops before every rank has made every call. */
  lemma NeverStuck(g: Group, run: seq<State>)
    requires AllSafe(g) && Run(g, run)
    ensures Finished(g, Last(run)) || exists s' :: Next(g, Last(run), s')
  {
    hide Sound, Settle;
    var s := Last(run);
    RunLocked(g, run);
    var f :| Locked(g, s, f);
    if r: nat :| r < g.world && s[r].pc.Start? && s[r].call < |g.calls| {
      var s' := s[r := Entered(g, r, s[r])];
      assert Begin(g, r, s, s') && Next(g, s, s');
    } else if r: nat :| r < g.world && !s[r].pc.Start? && !s[r].posted {
      var s' := s[r := s[r].(posted := true)];
      assert Post(g, r, s, s') && Next(g, s, s');
    } else if !Finished(g, s) {
      MeetsIfIdle(g, s, f);
    }
  }

  lemma MeetsIfIdle(g: Group, s: State, f: Rank)
    requires Locked(g, s, f) && !Finished(g, s)
    requires forall r: nat | r < g.world :: if s[r].pc.Start? then s[r].call >= |g.calls| else s[r].posted
    ensures exists s' :: Next(g, s, s')
  {
    hide Inside, Vote, Met, Next, AllVote;
    var k: nat :| k < g.world && !(s[k].pc.Start? && s[k].call == |g.calls|);
    PostedAtFrontier(g, s, f, k);
    forall r: nat | r < g.world ensures s[r] == f.(posted := true) {
      if s[r].posted { PostedAtFrontier(g, s, f, r); }
    }
    MeetPossible(g, s, f);
  }

  lemma MeetPossible(g: Group, s: State, f: Rank)
    requires |s| == g.world > 0 && f.call < |g.calls| && forall r: nat | r < g.world :: s[r] == f.(posted := true)
    ensures exists s' :: Next(g, s, s')
  {
    hide Met, AllVote, Posts, Begin, Post;
    var all := AllVote(g, s);
    var s' := seq(g.world, r requires 0 <= r < g.world => Met(g, s[r], all));
    assert Meet(g, s, s') && Next(g, s, s');
  }

  /** How many points of a call lie ahead. */
  function Ahead(pc: Pc): nat {
    match pc
    case Start => 20
    case Return(_) => 0
    case FirstRows => 19
    case AgreeRef(mode) => if mode.OnShard? then 18 else 14
    case AgreeRouted(mode) => if mode.OnShard? then 17 else 13
    case FirstTopk(mode) => if mode.OnShard? then 16 else 12
    case AgreeSame(mode) => if mode.OnShard? then 15 else 11
    case AgreeQuant(_) => 10
    case AgreeClean(_) => 9
    case FirstData(_) => 8
    case FirstScales(_) => 7
    case AgreeVerdict(_) => 6
    case AttnData(_) => 9
    case AttnScales(_) => 8
    case AttnRows => 7
    case AttnAgree => 6
    case SteadyTopk => 9
    case SteadyData => 8
    case SteadyScales => 7
    case AttnStock => 6
    case MoeStock => 6
    case LookupReduce => 5
    case WkvCheck => 4
    case WkvAgree => 3
    case WkvFull => 3
    case ReduceOut(_) => 1
  }

  ghost function Left(g: Group, x: Rank): nat {
    if x.call >= |g.calls| then 0 else 42 * (|g.calls| - x.call - 1) + 2 * Ahead(x.pc) + (if x.posted then 0 else 1)
  }

  ghost function Total(g: Group, s: State): nat {
    if s == [] then 0 else Total(g, s[..|s| - 1]) + Left(g, s[|s| - 1])
  }

  lemma {:induction false} TotalFalls(g: Group, s: State, s': State)
    requires |s| == |s'| && forall r: nat | r < |s| :: Left(g, s'[r]) <= Left(g, s[r])
    ensures Total(g, s') <= Total(g, s)
    ensures (exists r: nat :: r < |s| && Left(g, s'[r]) < Left(g, s[r])) ==> Total(g, s') < Total(g, s)
  {
    hide Left;
    if s != [] { TotalFalls(g, s[..|s| - 1], s'[..|s| - 1]); }
  }

  lemma MetFalls(g: Group, x: Rank, all: bool)
    requires x.call < |g.calls| && x.posted && !x.pc.Start? && !x.pc.Return?
    ensures Left(g, Met(g, x, all)) < Left(g, x)
  {
    var pc := After(x.pc, g.calls[x.call], x.tables, all);
    assert pc.Return? || Ahead(pc) < Ahead(x.pc);
  }

  lemma EnteredFalls(g: Group, r: nat, x: Rank)
    requires x.call < |g.calls| && x.pc.Start? && !x.posted
    ensures Left(g, Entered(g, r, x)) < Left(g, x)
  {}

  lemma StepFalls(g: Group, s: State, s': State, f: Rank)
    requires AllSafe(g) && Locked(g, s, f) && Next(g, s, s')
    ensures Total(g, s') < Total(g, s)
  {
    hide Met, Entered, Settle, Total, After, Posts;
    if Meet(g, s, s') {
      forall r: nat | r < g.world ensures Left(g, s'[r]) < Left(g, s[r]) {
        PostedAtFrontier(g, s, f, r);
        assert Sound(g, f);
        MetFalls(g, s[r], AllVote(g, s));
      }
      assert Left(g, s'[0]) < Left(g, s[0]);
    } else {
      var r: nat :| Begin(g, r, s, s') || Post(g, r, s, s');
      if Begin(g, r, s, s') { EnteredFalls(g, r, s[r]); }
      assert Left(g, s'[r]) < Left(g, s[r]);
    }
    TotalFalls(g, s, s');
  }

  /** Every schedule ends: no run is longer than the work at its start. */
  lemma {:induction false} RunsEnd(g: Group, run: seq<State>)
    requires AllSafe(g) && Run(g, run)
    ensures |run| + Total(g, run[|run| - 1]) <= Total(g, run[0]) + 1
  {
    if |run| > 1 {
      var n := |run| - 1;
      var before := run[..n];
      assert before[n - 1] == run[n - 1];
      RunsEnd(g, before);
      RunLocked(g, before);
      var f :| Locked(g, run[n - 1], f);
      assert Next(g, run[n - 1], run[n]);
      StepFalls(g, run[n - 1], run[n], f);
    }
  }
}
