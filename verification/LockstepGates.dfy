/** What an agreed verdict is worth, and what happens when the gates, which are never agreed on, differ. */
module LockstepGates {
  import opened Options
  import opened Lockstep
  import opened LockstepProof

  /* ------------------------------------------------------------------- earned verdicts */

  /** Every verdict in t stands unchanged in u. */
  ghost predicate Upholds(t: Tables, u: Tables) {
    && (forall m | m in t.moe8 :: m in u.moe8 && u.moe8[m] == t.moe8[m])
    && (forall m | m in t.fp8 :: m in u.fp8 && u.fp8[m] == t.fp8[m])
    && (forall m | m in t.wkv :: m in u.wkv && u.wkv[m] == t.wkv[m])
  }

  /** A verdict, once agreed, is never changed. */
  lemma {:induction false} VerdictsStand(g: Group, j: nat, k: nat)
    requires j <= k <= |g.calls|
    ensures Upholds(Decided(g, j), Decided(g, k))
  {
    hide Decide;
    if j < k {
      VerdictsStand(g, j, k - 1);
      DecideUpholds(g, k - 1, Decided(g, k - 1));
    }
  }

  lemma DecideUpholds(g: Group, k: nat, t: Tables)
    requires k < |g.calls|
    ensures Upholds(t, Decide(g, k, t))
  {
    hide RouterOf, AllPass, AllClean, AllQuantised;
  }

  /** A size is on only if, in one earlier chunk of that size, every rank's routing, bytes and output
      were the stock ones; the padded router is used only if some rank's shard routing was not. */
  lemma {:induction false} OnIsEarned(g: Group, k: nat, m: nat) returns (j: nat)
    requires k <= |g.calls| && m in Decided(g, k).moe8 && Decided(g, k).moe8[m].ok
    ensures j < k && g.calls[j] == Moe(m) && Decided(g, k).moe8[m].router.Some?
    ensures
      var mode := Decided(g, k).moe8[m].router.value;
      forall r: nat | r < g.world ::
        var o := g.sees(r, j);
        && o.refRouted && Bit(o.routed, mode) && Bit(o.same, mode)
        && o.quantised && o.clean && o.ran && o.bytesSame && o.outSame
    ensures
      var mode := Decided(g, k).moe8[m].router.value;
      (mode.Padded? ==> exists r: nat :: r < g.world && !Bit(g.sees(r, j).same, OnShard))
  {
    if m in Decided(g, k - 1).moe8 {
      VerdictsStand(g, k - 1, k);
      j := OnIsEarned(g, k - 1, m);
    } else {
      j := k - 1;
      RouterMeans(g, j);
      PassMeans(g, j, Decided(g, k).moe8[m].router);
      hide RouterOf, RoutesOn, AllPass, AllClean, AllQuantised;
    }
  }

  /** A call that every rank passed with a router, rank by rank. */
  lemma PassMeans(g: Group, k: nat, router: Option<Mode>)
    ensures router.Some? && RoutesOn(g, k, router.value) && AllPass(g, k) && AllClean(g, k) && AllQuantised(g, k) ==>
              forall r: nat | r < g.world ::
                var o := g.sees(r, k);
                && o.refRouted && Bit(o.routed, router.value) && Bit(o.same, router.value)
                && o.quantised && o.clean && o.ran && o.bytesSame && o.outSame
  {}

  lemma RouterMeans(g: Group, k: nat)
    ensures RouterOf(g, k).Some? ==> RoutesOn(g, k, RouterOf(g, k).value)
    ensures RouterOf(g, k) == Some(Padded) ==> exists r: nat :: r < g.world && !Bit(g.sees(r, k).same, OnShard)
  {
    if RouterOf(g, k) == Some(Padded) {
      var r: nat :| r < g.world
        && !(g.sees(r, k).refRouted && Bit(g.sees(r, k).routed, OnShard) && Bit(g.sees(r, k).same, OnShard));
      assert RoutesOn(g, k, Padded);
      assert g.sees(r, k).refRouted;
    }
  }

  /** A check chunk whose tiny blocks put the verdict off leaves the size open. */
  lemma PutOffIsUndecided(g: Group, k: nat, m: nat)
    requires k < |g.calls| && g.calls[k] == Moe(m) && m !in Decided(g, k).moe8
    ensures m !in Decided(g, k + 1).moe8 <==>
            !g.sees(0, k).gate || (RouterOf(g, k).Some? && AllQuantised(g, k) && !AllClean(g, k))
  {}

  /** What rank r gets from call k is the stock result: the stock path computes it, and the quantised one
      ran to an output equal to it. */
  ghost predicate ReturnsStock(g: Group, k: nat, r: nat)
    requires k < |g.calls|
  {
    PathOf(g, k).Stock? || (g.sees(r, k).ran && g.sees(r, k).outSame)
  }

  /** Whatever path a check chunk returns by, its result is the stock one on every rank. */
  lemma CheckReturnsStock(g: Group, k: nat, m: nat)
    requires k < |g.calls| && g.calls[k] == Moe(m) && m !in Decided(g, k).moe8
    ensures forall r: nat | r < g.world :: ReturnsStock(g, k, r)
  {
    if PathOf(g, k).Quantised? {
      assert AllPass(g, k);
      hide Decided, PathOf, Verdicts;
    }
  }

  /** The attention input of a size is on only if one earlier chunk of it had, on every rank, the stock
      bytes, scales and product. */
  lemma {:induction false} InputOnIsEarned(g: Group, k: nat, m: nat) returns (j: nat)
    requires k <= |g.calls| && m in Decided(g, k).fp8 && Decided(g, k).fp8[m]
    ensures j < k && g.calls[j] == Attn(m) && g.sees(0, j).gate && forall r: nat | r < g.world :: g.sees(r, j).inputSame
  {
    if m in Decided(g, k - 1).fp8 {
      VerdictsStand(g, k - 1, k);
      j := InputOnIsEarned(g, k - 1, m);
    } else {
      j := k - 1;
    }
  }

  /** A lookup product is taken on the shard only if one earlier chunk of that table and size was equal to
      the full product on every rank. */
  lemma {:induction false} WkvOnIsEarned(g: Group, k: nat, h: nat, m: nat) returns (j: nat)
    requires k <= |g.calls| && (h, m) in Decided(g, k).wkv && Decided(g, k).wkv[(h, m)]
    ensures j < k && g.calls[j].Engram? && g.calls[j].hash == h && g.calls[j].rows == m
    ensures g.calls[j].checked && forall r: nat | r < g.world :: g.sees(r, j).gemmSame
  {
    if (h, m) in Decided(g, k - 1).wkv {
      VerdictsStand(g, k - 1, k);
      j := WkvOnIsEarned(g, k - 1, h, m);
    } else {
      j := k - 1;
    }
  }

  /* ------------------------------------------------------------------- gates that differ */

  /** The first call whose gates differ while its verdict is open. */
  ghost predicate FirstUnsafe(g: Group, k: nat) {
    g.world > 0 && k < |g.calls| && !Safe(g, k) && forall j: nat | j < k :: Safe(g, j)
  }

  function Before(g: Group, k: nat): Group
    requires k <= |g.calls|
  {
    g.(calls := g.calls[..k])
  }

  lemma VerdictsBefore(g: Group, k: nat, j: nat)
    requires j < k <= |g.calls|
    ensures Verdicts(Before(g, k), j) == Verdicts(g, j)
  {
    var h := Before(g, k);
    assert AllQuantised(h, j) == AllQuantised(g, j) && AllClean(h, j)
           == AllClean(g, j) && AllPass(h, j) == AllPass(g, j);
    assert RoutesOn(h, j, OnShard) == RoutesOn(g, j, OnShard) && RoutesOn(h, j, Padded) == RoutesOn(g, j, Padded);
    hide AllQuantised, AllClean, AllPass, RoutesOn;
    assert RouterOf(h, j) == RouterOf(g, j);
  }

  lemma DecideBefore(g: Group, k: nat, j: nat, t: Tables)
    requires j < k <= |g.calls|
    ensures Decide(Before(g, k), j, t) == Decide(g, j, t)
  {
    VerdictsBefore(g, k, j);
    var h := Before(g, k);
    assert AllInputsSame(h, j) == AllInputsSame(g, j) && AllProductsSame(h, j) == AllProductsSame(g, j);
    hide Verdicts, AllInputsSame, AllProductsSame;
  }

  lemma {:induction false} DecidedBefore(g: Group, k: nat, j: nat)
    requires j <= k <= |g.calls|
    ensures Decided(Before(g, k), j) == Decided(g, j)
  {
    hide Decide;
    if j > 0 {
      DecidedBefore(g, k, j - 1);
      DecideBefore(g, k, j - 1, Decided(g, j - 1));
    }
  }

  lemma BeforeSafe(g: Group, k: nat)
    requires FirstUnsafe(g, k)
    ensures AllSafe(Before(g, k))
  {
    forall j: nat | j < k ensures Safe(Before(g, k), j) {
      DecidedBefore(g, k, j);
      assert Safe(g, j) && Before(g, k).calls[j] == g.calls[j];
      hide Decided, Off;
    }
  }

  /** Rank r has entered the unsafe call and stands where its own gate took it. */
  ghost predicate AtEntry(g: Group, k: nat, r: nat, x: Rank)
    requires k < |g.calls|
  {
    x.call == k && x.tables == Decided(g, k) && !x.pc.Start? && x.pc == Enter(g.calls[k], x.tables, g.sees(r, k).gate)
  }

  /** Rank r is on its way to the start f of the unsafe call. */
  ghost predicate Coming(g: Group, k: nat, r: nat, x: Rank, f: Rank)
    requires k < |g.calls|
  {
    Sound(Before(g, k), x) && Settle(Before(g, k), r, x.(posted := false)) == f
  }

  ghost predicate Tearing(g: Group, k: nat, s: State, f: Rank)
    requires k < |g.calls|
  {
    && |s| == g.world && f.pc.Start? && f.call == k && f.tables == Decided(g, k)
    && forall r: nat | r < g.world :: Coming(g, k, r, s[r], f) || AtEntry(g, k, r, s[r])
  }

  /** A first check whose rows were gathered by everyone: the others now want to agree, the lone rank to reduce. */
  ghost predicate Torn(g: Group, k: nat, s: State) {
    |s| == g.world && forall r: nat | r < g.world ::
      s[r].call == k && s[r].pc == (if g.sees(r, k).gate then AgreeRef(OnShard) else ReduceOut(Stock))
  }

  ghost predicate Stalling(g: Group, k: nat, s: State)
    requires k < |g.calls|
  {
    || (exists f :: Locked(Before(g, k), s, f))
    || (exists f :: Tearing(g, k, s, f))
    || Torn(g, k, s)
  }

  /** Some rank's gate differs from rank 0's. */
  lemma OddRank(g: Group, k: nat) returns (r: nat)
    requires FirstUnsafe(g, k)
    ensures r < g.world && g.sees(r, k).gate != g.sees(0, k).gate && k < |g.calls| && !Off(g.calls[k], Decided(g, k))
  {
    hide Decided, Off;
    r :| r < g.world && g.sees(r, k).gate != g.sees(0, k).gate;
  }

  lemma TornNeverMeets(g: Group, k: nat, s: State, s': State)
    requires FirstUnsafe(g, k) && Torn(g, k, s)
    ensures !Meet(g, s, s')
  {
    hide FirstUnsafe, Met, AllVote, Off, Decided, Safe;
    var r := OddRank(g, k);
    assert Posts(s[r].pc, g.calls[k].rows) != Posts(s[0].pc, g.calls[k].rows);
    hide Posts;
  }

  lemma TornKeeps(g: Group, k: nat, s: State, s': State)
    requires FirstUnsafe(g, k) && Torn(g, k, s) && Next(g, s, s')
    ensures Torn(g, k, s')
  {
    hide FirstUnsafe, Meet, Entered;
    TornNeverMeets(g, k, s, s');
    var r: nat :| Begin(g, r, s, s') || Post(g, r, s, s');
  }

  lemma ComingBegins(g: Group, k: nat, r: nat, x: Rank, f: Rank)
    requires FirstUnsafe(g, k) && r < g.world && Coming(g, k, r, x, f) && f.pc.Start? && f.call == k
    requires f.tables == Decided(g, k)
    requires x.pc.Start?
    ensures x.call <= k
    ensures if x.call < k then Coming(g, k, r, Entered(g, r, x), f) else AtEntry(g, k, r, Entered(g, r, x))
  {
    var h := Before(g, k);
    BeforeSafe(g, k);
    assert x.(posted := false) == x;
    if x.call < k {
      EnterLands(h, x.call, r);
      LandsSound(h, x, Enter(h.calls[x.call], x.tables, h.sees(r, x.call).gate));
      assert Entered(h, r, x) == Entered(g, r, x);
      assert Entered(h, r, x).(posted := false) == Entered(h, r, x);
    } else {
      assert x == f;
    }
  }

  /** With an open verdict, the gated and the ungated entry post the same collective only in a first check. */
  lemma EntriesDiffer(c: Call, t: Tables)
    requires !Off(c, t) && Posts(Enter(c, t, true), c.rows) == Posts(Enter(c, t, false), c.rows)
    ensures c.Moe? && Enter(c, t, true) == FirstRows && Enter(c, t, false) == MoeStock
  {}

  lemma TearingIsFirst(g: Group, k: nat, s: State, s': State, f: Rank, r: nat)
    requires FirstUnsafe(g, k) && Tearing(g, k, s, f) && Meet(g, s, s') && r < g.world
    ensures s[r].call == k && s[r].pc == if g.sees(r, k).gate then FirstRows else MoeStock
  {
    hide Posts, Enter, Met, Decided, Off, Coming;
    var a: nat :| a < g.world && g.sees(a, k).gate != g.sees(0, k).gate;
    PostedAtEntry(g, k, a, s[a], f);
    PostedAtEntry(g, k, 0, s[0], f);
    PostedAtEntry(g, k, r, s[r], f);
    assert Posts(s[a].pc, g.calls[k].rows) == Posts(s[0].pc, g.calls[k].rows);
    EntriesDiffer(g.calls[k], Decided(g, k));
  }

  lemma TearingMeets(g: Group, k: nat, s: State, s': State, f: Rank)
    requires FirstUnsafe(g, k) && Tearing(g, k, s, f) && Meet(g, s, s')
    ensures Torn(g, k, s')
  {
    hide Met, Tearing, Safe;
    forall r: nat | r < g.world
      ensures s'[r].call == k && s'[r].pc == (if g.sees(r, k).gate then AgreeRef(OnShard) else ReduceOut(Stock))
    {
      TearingIsFirst(g, k, s, s', f, r);
      MetInFirst(g, s[r], AllVote(g, s));
    }
  }

  lemma PostedAtEntry(g: Group, k: nat, r: nat, x: Rank, f: Rank)
    requires k < |g.calls| && x.posted && f.pc.Start? && (Coming(g, k, r, x, f) || AtEntry(g, k, r, x))
    ensures AtEntry(g, k, r, x)
  {}

  lemma MetInFirst(g: Group, x: Rank, all: bool)
    requires x.call < |g.calls| && (x.pc.FirstRows? || x.pc.MoeStock?)
    ensures Met(g, x, all).call == x.call
    ensures Met(g, x, all).pc == if x.pc.FirstRows? then AgreeRef(OnShard) else ReduceOut(Stock)
  {}

  lemma TearingKeeps(g: Group, k: nat, s: State, s': State, f: Rank)
    requires FirstUnsafe(g, k) && Tearing(g, k, s, f) && Next(g, s, s')
    ensures Stalling(g, k, s')
  {
    hide Coming, AtEntry, Settle;
    if Meet(g, s, s') { TearingMeets(g, k, s, s', f); return; }
    var r: nat :| Begin(g, r, s, s') || Post(g, r, s, s');
    if Begin(g, r, s, s') {
      assert Coming(g, k, r, s[r], f) by { assert !AtEntry(g, k, r, s[r]) by { EntryStarted(g, k, r, s[r]); } }
      ComingBegins(g, k, r, s[r], f);
    } else {
      TearingPosts(g, k, r, s[r], f);
    }
    assert Tearing(g, k, s', f);
  }

  lemma EntryStarted(g: Group, k: nat, r: nat, x: Rank)
    requires k < |g.calls| && x.pc.Start?
    ensures !AtEntry(g, k, r, x)
  {}

  lemma TearingPosts(g: Group, k: nat, r: nat, x: Rank, f: Rank)
    requires k < |g.calls| && !x.pc.Start? && f.pc.Start? && (Coming(g, k, r, x, f) || AtEntry(g, k, r, x))
    ensures AtEntry(g, k, r, x.(posted := true))
  {}

  lemma LockedBegins(g: Group, k: nat, r: nat, s: State, s': State, f: Rank)
    requires FirstUnsafe(g, k) && Locked(Before(g, k), s, f) && Begin(g, r, s, s')
    ensures Stalling(g, k, s')
  {
    var h := Before(g, k);
    BeforeSafe(g, k);
    if s[r].call < k {
      assert Begin(h, r, s, s') by { assert Entered(h, r, s[r]) == Entered(g, r, s[r]); }
      BeginKeeps(h, r, s, s', f);
    } else {
      assert s[r].(posted := false) == s[r] == f;
      DecidedBefore(g, k, k);
      assert Tearing(g, k, s, f);
      assert Next(g, s, s');
      TearingKeeps(g, k, s, s', f);
    }
  }

  lemma LockedMeets(g: Group, k: nat, s: State, s': State, f: Rank)
    requires FirstUnsafe(g, k) && Locked(Before(g, k), s, f) && Meet(g, s, s')
    ensures Stalling(g, k, s')
  {
    var h := Before(g, k);
    BeforeSafe(g, k);
    forall r: nat | r < g.world
      ensures s[r].posted && s[r].call < k && Met(h, s[r], AllVote(h, s)) == Met(g, s[r], AllVote(g, s))
    {
      PostedAtFrontier(h, s, f, r);
    }
    assert Meet(h, s, s');
    MeetKeeps(h, s, s', f);
  }

  lemma {:induction false} UnsafeStalls(g: Group, k: nat, run: seq<State>)
    requires FirstUnsafe(g, k) && Run(g, run)
    ensures Stalling(g, k, Last(run))
  {
    hide Stalling, Next, Safe;
    if |run| == 1 {
      assert Stalling(g, k, run[0]) by { StallingStarts(g, k, run[0]); }
      return;
    }
    var n := |run| - 1;
    var before := run[..n];
    UnsafeStalls(g, k, before);
    assert Last(before) == run[n - 1] && Last(run) == run[n];
    assert Next(g, run[n - 1], run[n]);
    StallingKeeps(g, k, run[n - 1], run[n]);
  }

  lemma StallingStarts(g: Group, k: nat, s: State)
    requires FirstUnsafe(g, k) && Init(g, s)
    ensures Stalling(g, k, s)
  {
    BeforeSafe(g, k);
    InitLocked(Before(g, k), s);
  }

  lemma StallingKeeps(g: Group, k: nat, s: State, s': State)
    requires FirstUnsafe(g, k) && Stalling(g, k, s) && Next(g, s, s')
    ensures Stalling(g, k, s')
  {
    hide Tearing, Locked, Torn, Safe;
    if Torn(g, k, s) { TornKeeps(g, k, s, s'); }
    else if f :| Tearing(g, k, s, f) { TearingKeeps(g, k, s, s', f); }
    else {
      var f :| Locked(Before(g, k), s, f);
      if Meet(g, s, s') { LockedMeets(g, k, s, s', f); return; }
      var r: nat :| Begin(g, r, s, s') || Post(g, r, s, s');
      if Begin(g, r, s, s') { LockedBegins(g, k, r, s, s', f); }
      else { PostKeeps(Before(g, k), r, s, s', f); }
    }
  }

  /** In no run does any rank ever get past the unsafe call. */
  lemma NoRankPasses(g: Group, k: nat, run: seq<State>, r: nat)
    requires FirstUnsafe(g, k) && Run(g, run) && r < g.world
    ensures |Last(run)| == g.world && Last(run)[r].call <= k
  {
    UnsafeStalls(g, k, run);
    var s := Last(run);
    if f :| Tearing(g, k, s, f) { assert Coming(g, k, r, s[r], f) || AtEntry(g, k, r, s[r]); }
  }

  /** A run can always be driven to the end when every call is safe. */
  lemma Drive(g: Group, run: seq<State>) returns (full: seq<State>)
    requires AllSafe(g) && Run(g, run)
    ensures Run(g, full) && Finished(g, Last(full))
    decreases Total(g, Last(run))
  {
    if Finished(g, Last(run)) { return run; }
    NeverStuck(g, run);
    RunLocked(g, run);
    var s' :| Next(g, Last(run), s');
    var f :| Locked(g, Last(run), f);
    StepFalls(g, Last(run), s', f);
    full := Drive(g, run + [s']);
  }

  /** The calls can all be made if and only if each is safe; with NeverStuck and RunsEnd, every schedule
      then makes them. */
  lemma CompletesIff(g: Group)
    requires g.world > 0
    ensures AllSafe(g) <==> exists run :: Run(g, run) && Finished(g, Last(run))
  {
    if AllSafe(g) {
      var s := seq(g.world, r requires 0 <= r < g.world => Rank(0, Start, false, Tables(map[], map[], map[]), [], []));
      assert Run(g, [s]);
      var full := Drive(g, [s]);
    } else {
      var k := FirstOf(g);
      forall run | Run(g, run) ensures !Finished(g, Last(run)) { NoRankPasses(g, k, run, 0); }
    }
  }

  lemma FirstOf(g: Group) returns (k: nat)
    requires g.world > 0 && !AllSafe(g)
    ensures FirstUnsafe(g, k)
  {
    k := 0;
    while Safe(g, k)
      invariant k < |g.calls| && forall j: nat | j < k :: Safe(g, j)
      decreases |g.calls| - k
    {
      k := k + 1;
    }
  }

  /** One MoE call on two ranks, of which only rank 0 finds its layer fit for the quantised input. */
  function Split(): Group {
    var sees := (r: nat, k: nat) => Outcome(r == 0, true, true, map[], map[], true, true, true, true, true, true);
    Group([Moe(4096)], 2, sees)
  }

  /** Then rank 1 goes on alone, and no schedule ever completes the call. */
  lemma LoneGateStalls()
    ensures forall run: seq<State> | Run(Split(), run) :: !Finished(Split(), Last(run))
  {
    var g := Split();
    assert g.sees(0, 0).gate && !g.sees(1, 0).gate;
    assert FirstUnsafe(g, 0);
    hide Run, Finished;
    forall run: seq<State> | Run(g, run) ensures !Finished(g, Last(run)) {
      NoRankPasses(g, 0, run, 1);
      NotFinished(g, Last(run));
    }
  }

  lemma NotFinished(g: Group, s: State)
    requires |s| == g.world && g.world > 1 && s[1].call < |g.calls|
    ensures !Finished(g, s)
  {}
}
