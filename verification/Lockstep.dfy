/** The check-then-agree protocol of adapter/prefill_sp.py: every rank runs its own copy of the call
    sequence, meets the others only in collectives, and decides from rank-local outcomes (exceptions,
    mismatches, tiny blocks) which path a call takes.  A collective completes only when every rank has
    posted the same one, so a rank that goes elsewhere alone stops the whole group. */
module Lockstep {
  import opened Options

  datatype Mode = OnShard | Padded
  datatype Path = Quantised | Stock

  /** One hooked call of the layer loop.  `partial` lookups are reduced; `checked` is WKV_SHARD. */
  datatype Call = Attn(rows: nat) | Moe(rows: nat) | Engram(hash: nat, rows: nat, partial: bool, checked: bool)

  datatype Verdict = Verdict(ok: bool, router: Option<Mode>)

  /** _MOE8, _FP8_M and _WKV_OK of one rank. */
  datatype Tables = Tables(moe8: map<nat, Verdict>, fp8: map<nat, bool>, wkv: map<(nat, nat), bool>)

  /** What one rank sees on its own in one call.  `gate`: the layer takes the quantised input here. */
  datatype Outcome = Outcome(gate: bool, inputSame: bool, refRouted: bool, routed: map<Mode, bool>,
          same: map<Mode, bool>, quantised: bool, clean: bool, ran: bool, bytesSame: bool, outSame: bool,
          gemmSame: bool)

  datatype Collective = GatherRows(rows: nat) | GatherTopk(rows: nat, flags: bool) | GatherData(rows: nat)
                      | GatherScales(rows: nat) | AgreeMin | Reduce(rows: nat)

  /** Where a rank stands: at the start of a call, at one of its collectives, or leaving it. */
  datatype Pc =
    | Start | Return(path: Path)
    | AttnData(known: bool) | AttnScales(known: bool) | AttnRows | AttnAgree | AttnStock
    | SteadyTopk | SteadyData | SteadyScales
    | FirstRows | AgreeRef(mode: Mode) | AgreeRouted(mode: Mode) | FirstTopk(mode: Mode) | AgreeSame(mode: Mode)
    | AgreeQuant(mode: Mode) | AgreeClean(mode: Mode) | FirstData(mode: Mode) | FirstScales(mode: Mode)
    | AgreeVerdict(router: Option<Mode>)
    | MoeStock | ReduceOut(path: Path)
    | LookupReduce | WkvCheck | WkvAgree | WkvFull

  function Bit(m: map<Mode, bool>, k: Mode): bool { k in m && m[k] }

  /* ------------------------------------------------------------------- one rank's program */

  /** The tables already say that this call takes the stock path, whatever the gate. */
  predicate Off(c: Call, t: Tables) {
    match c
    case Attn(m) => m in t.fp8 && !t.fp8[m]
    case Moe(m) => m in t.moe8 && !t.moe8[m].ok
    case Engram(_, _, _, _) => true
  }

  function WkvEntry(c: Call, t: Tables): Pc
    requires c.Engram?
  {
    var key := (c.hash, c.rows);
    if !c.checked then WkvFull
    else if key !in t.wkv then WkvCheck
    else if t.wkv[key] then Return(Quantised) else WkvFull
  }

  function Enter(c: Call, t: Tables, gate: bool): Pc {
    match c
    case Attn(m) => if gate && !Off(c, t) then AttnData(m in t.fp8) else AttnStock
    case Moe(m) => if Off(c, t) || !gate then MoeStock else if m in t.moe8 then SteadyTopk else FirstRows
    case Engram(_, _, partial, _) => if partial then LookupReduce else WkvEntry(c, t)
  }

  /** The collective a rank posts at a point. */
  function Posts(pc: Pc, m: nat): Collective {
    match pc
    case AttnData(_) => GatherData(m)
    case AttnScales(_) => GatherScales(m)
    case SteadyTopk => GatherTopk(m, true)
    case FirstTopk(_) => GatherTopk(m, false)
    case SteadyData => GatherData(m)
    case FirstData(_) => GatherData(m)
    case SteadyScales => GatherScales(m)
    case FirstScales(_) => GatherScales(m)
    case AttnAgree => AgreeMin
    case AgreeRef(_) => AgreeMin
    case AgreeRouted(_) => AgreeMin
    case AgreeSame(_) => AgreeMin
    case AgreeQuant(_) => AgreeMin
    case AgreeClean(_) => AgreeMin
    case AgreeVerdict(_) => AgreeMin
    case WkvAgree => AgreeMin
    case ReduceOut(_) => Reduce(m)
    case LookupReduce => Reduce(m)
    case _ => GatherRows(m)
  }

  /** The flag a rank brings to a collective: _agree_min's vote, or the danger flag of the steady gather. */
  function Vote(pc: Pc, o: Outcome): bool {
    match pc
    case AttnAgree => o.inputSame
    case SteadyTopk => o.clean
    case AgreeRef(_) => o.refRouted
    case AgreeRouted(mode) => Bit(o.routed, mode)
    case AgreeSame(mode) => Bit(o.same, mode)
    case AgreeQuant(_) => o.quantised
    case AgreeClean(_) => o.clean
    case AgreeVerdict(router) => router.Some? && o.ran && o.bytesSame && o.outSame
    case WkvAgree => o.gemmSame
    case _ => true
  }

  /** Where a rank goes once the collective has given it the AND of the votes. */
  function After(pc: Pc, c: Call, t: Tables, all: bool): Pc {
    match pc
    case AttnData(known) => AttnScales(known)
    case AttnScales(known) => if known then ReduceOut(Quantised) else AttnRows
    case AttnRows => AttnAgree
    case AttnAgree => ReduceOut(if all then Quantised else Stock)
    case AttnStock => ReduceOut(Stock)
    case SteadyTopk => if all then SteadyData else MoeStock
    case SteadyData => SteadyScales
    case SteadyScales => ReduceOut(Quantised)
    case FirstRows => AgreeRef(OnShard)
    case AgreeRef(mode) => if all then AgreeRouted(mode) else AgreeVerdict(None)
    case AgreeRouted(mode) => if all then FirstTopk(mode) else AgreeVerdict(None)
    case FirstTopk(mode) => AgreeSame(mode)
    case AgreeSame(mode) =>
      if all then AgreeQuant(mode) else if mode.OnShard? then AgreeRef(Padded) else AgreeVerdict(None)
    case AgreeQuant(mode) => if all then AgreeClean(mode) else AgreeVerdict(None)
    case AgreeClean(mode) => if all then FirstData(mode) else ReduceOut(Stock)
    case FirstData(mode) => FirstScales(mode)
    case FirstScales(mode) => AgreeVerdict(Some(mode))
    case AgreeVerdict(_) => ReduceOut(if all then Quantised else Stock)
    case MoeStock => ReduceOut(Stock)
    case ReduceOut(path) => Return(path)
    case LookupReduce => if c.Engram? then WkvEntry(c, t) else Return(Stock)
    case WkvCheck => WkvAgree
    case WkvAgree => Return(if all then Quantised else Stock)
    case WkvFull => Return(Stock)
    case _ => pc
  }

  function Record(pc: Pc, c: Call, t: Tables, all: bool): Tables {
    match pc
    case AttnAgree => t.(fp8 := t.fp8[c.rows := all])
    case AgreeVerdict(router) => t.(moe8 := t.moe8[c.rows := Verdict(all, router)])
    case WkvAgree => if c.Engram? then t.(wkv := t.wkv[(c.hash, c.rows) := all]) else t
    case _ => t
  }

  /* ------------------------------------------------------------------------- the group */

  datatype Rank = Rank(call: nat, pc: Pc, posted: bool, tables: Tables, met: seq<Collective>, paths: seq<Path>)

  /** The calls every rank makes, the ranks, and what each sees in each call. */
  datatype Group = Group(calls: seq<Call>, world: nat, sees: (nat, nat) -> Outcome)

  /** Leaving a call brings the rank to the start of the next. */
  function Arrive(x: Rank, pc: Pc): Rank {
    if pc.Return? then x.(call := x.call + 1, pc := Start, posted := false, paths := x.paths + [pc.path])
    else x.(pc := pc, posted := false)
  }

  function Entered(g: Group, r: nat, x: Rank): Rank
    requires x.call < |g.calls|
  {
    Arrive(x, Enter(g.calls[x.call], x.tables, g.sees(r, x.call).gate))
  }

  function Issued(g: Group, x: Rank): seq<Collective> {
    if x.posted && x.call < |g.calls| then x.met + [Posts(x.pc, g.calls[x.call].rows)] else x.met
  }

  function Met(g: Group, x: Rank, all: bool): Rank
    requires x.call < |g.calls|
  {
    var c := g.calls[x.call];
    Arrive(x.(met := Issued(g, x), tables := Record(x.pc, c, x.tables, all)), After(x.pc, c, x.tables, all))
  }

  type State = seq<Rank>

  ghost predicate Begin(g: Group, r: nat, s: State, s': State) {
    && |s| == |s'| == g.world && r < g.world && s[r].pc.Start? && s[r].call < |g.calls|
    && s' == s[r := Entered(g, r, s[r])]
  }

  ghost predicate Post(g: Group, r: nat, s: State, s': State) {
    && |s| == |s'| == g.world && r < g.world && !s[r].pc.Start? && !s[r].posted
    && s' == s[r := s[r].(posted := true)]
  }

  ghost predicate AllPosted(g: Group, s: State) {
    && |s| == g.world
    && (forall r: nat | r < g.world :: s[r].posted && s[r].call < |g.calls|)
    && (forall a: nat, b: nat | a < g.world && b < g.world ::
          Posts(s[a].pc, g.calls[s[a].call].rows) == Posts(s[b].pc, g.calls[s[b].call].rows))
  }

  ghost predicate AllVote(g: Group, s: State)
    requires |s| == g.world
  {
    forall r: nat | r < g.world :: Vote(s[r].pc, g.sees(r, s[r].call))
  }

  ghost predicate Meet(g: Group, s: State, s': State) {
    && g.world > 0 && AllPosted(g, s) && |s'| == g.world
    && forall r: nat | r < g.world :: s'[r] == Met(g, s[r], AllVote(g, s))
  }

  /** One step of the group, under any scheduler. */
  ghost predicate Next(g: Group, s: State, s': State) {
    (exists r: nat :: Begin(g, r, s, s') || Post(g, r, s, s')) || Meet(g, s, s')
  }

  ghost predicate Init(g: Group, s: State) {
    && g.world > 0 && |s| == g.world
    && forall r: nat | r < g.world :: s[r] == Rank(0, Start, false, Tables(map[], map[], map[]), [], [])
  }

  ghost predicate Run(g: Group, run: seq<State>) {
    |run| > 0 && Init(g, run[0]) && forall i: nat | i + 1 < |run| :: Next(g, run[i], run[i + 1])
  }

  /* ----------------------------------------------------- the decisions, with no protocol */

  ghost predicate RoutesOn(g: Group, k: nat, mode: Mode) {
    forall r: nat | r < g.world ::
      g.sees(r, k).refRouted && Bit(g.sees(r, k).routed, mode) && Bit(g.sees(r, k).same, mode)
  }

  ghost predicate AllRouted(g: Group, k: nat, mode: Mode) {
    forall r: nat | r < g.world :: Bit(g.sees(r, k).routed, mode)
  }

  /** The router that every rank can use: the shard, or else the padded input if the shard product ran. */
  ghost function RouterOf(g: Group, k: nat): Option<Mode> {
    if RoutesOn(g, k, OnShard) then Some(OnShard)
    else if RoutesOn(g, k, Padded) && AllRouted(g, k, OnShard) then Some(Padded)
    else None
  }

  ghost predicate AllInputsSame(g: Group, k: nat) { forall r: nat | r < g.world :: g.sees(r, k).inputSame }
  ghost predicate AllProductsSame(g: Group, k: nat) { forall r: nat | r < g.world :: g.sees(r, k).gemmSame }
  ghost predicate AllQuantised(g: Group, k: nat) { forall r: nat | r < g.world :: g.sees(r, k).quantised }
  ghost predicate AllClean(g: Group, k: nat) { forall r: nat | r < g.world :: g.sees(r, k).clean }

  /** The quantised path ran on every rank, on the bytes the kernel itself makes, to the stock output. */
  ghost predicate AllPass(g: Group, k: nat) {
    forall r: nat | r < g.world :: g.sees(r, k).ran && g.sees(r, k).bytesSame && g.sees(r, k).outSame
  }

  /** The verdict of a first MoE chunk, or none when a tiny block puts it off. */
  ghost function Verdicts(g: Group, k: nat): Option<Verdict> {
    var router := RouterOf(g, k);
    if router.None? || !AllQuantised(g, k) then Some(Verdict(false, None))
    else if !AllClean(g, k) then None
    else Some(Verdict(AllPass(g, k), router))
  }

  /** What one call adds to the tables. */
  ghost function Decide(g: Group, k: nat, t: Tables): Tables
    requires k < |g.calls|
  {
    var gate := g.sees(0, k).gate;
    match g.calls[k]
    case Attn(m) => if gate && m !in t.fp8 then t.(fp8 := t.fp8[m := AllInputsSame(g, k)]) else t
    case Moe(m) =>
      if gate && m !in t.moe8 && Verdicts(g, k).Some? then t.(moe8 := t.moe8[m := Verdicts(g, k).value]) else t
    case Engram(h, m, _, checked) =>
      if checked && (h, m) !in t.wkv then t.(wkv := t.wkv[(h, m) := AllProductsSame(g, k)]) else t
  }

  /** The tables after the first k calls. */
  ghost function Decided(g: Group, k: nat): Tables
    requires k <= |g.calls|
  {
    if k == 0 then Tables(map[], map[], map[]) else Decide(g, k - 1, Decided(g, k - 1))
  }

  /** A call is safe when its verdict is already off or the ranks' gates agree. */
  ghost predicate Safe(g: Group, k: nat)
    requires k < |g.calls|
  {
    Off(g.calls[k], Decided(g, k)) || forall r: nat | r < g.world :: g.sees(r, k).gate == g.sees(0, k).gate
  }

  ghost predicate AllSafe(g: Group) { forall k: nat | k < |g.calls| :: Safe(g, k) }

  /** The path a call returns by, on every rank. */
  ghost function PathOf(g: Group, k: nat): Path
    requires k < |g.calls|
  {
    var t, gate := Decided(g, k + 1), g.sees(0, k).gate;
    match g.calls[k]
    case Attn(m) => if gate && m in t.fp8 && t.fp8[m] then Quantised else Stock
    case Moe(m) =>
      if gate && m in t.moe8 && t.moe8[m].ok && AllClean(g, k) then Quantised else Stock
    case Engram(h, m, _, checked) => if checked && t.wkv[(h, m)] then Quantised else Stock
  }

  ghost function Paths(g: Group, k: nat): seq<Path>
    requires k <= |g.calls|
  {
    if k == 0 then [] else Paths(g, k - 1) + [PathOf(g, k - 1)]
  }
}
