/** The host side of the certified head (adapter/cert_head.py): when a step is armed, and what the
    device buffers then hold. */
module CertBuffers {
  import opened Options
  import opened Seqs
  import opened CertHead

  const NSTOP: nat := 64

  /** What may happen to a request's row of logits before a token is taken from it. */
  type Edit = (nat, seq<Val>) -> seq<Val>

  /** min_new_tokens sets some stop ids of a request to -inf; any other penalizer edits as it likes. */
  datatype Penalizer = MinNewTokens(prepared: bool, kill: nat -> set<int>) | Other(prepared: bool, edit: Edit)

  datatype Orchestrator = Orchestrator(required: bool, penalizers: seq<Penalizer>)

  /** Scheduler state of a batch.  reqStops: every request's stop ids. */
  datatype Info = Info(allGreedy: bool, processor: Option<Edit>, logitBias: Option<Edit>, grammarMask: Option<Edit>,
          pen: Option<Orchestrator>)
  datatype Batch = Batch(returnLogprob: bool, hasGrammar: bool, info: Option<Info>, reqStops: seq<seq<int>>)

  /* ------------------------------------------------------------- what a step makes of its logits */

  function Apply(e: Option<Edit>, r: nat, row: seq<Val>): seq<Val> { if e.Some? then e.value(r, row) else row }

  /** The prepared penalizers, one after the other. */
  function Penalise(ps: seq<Penalizer>, r: nat, row: seq<Val>): seq<Val> {
    if ps == [] then row
    else
      var before := Penalise(ps[..|ps| - 1], r, row);
      match ps[|ps| - 1]
      case MinNewTokens(prepared, kill) => if prepared then PostMask(before, 0, kill(r)) else before
      case Other(prepared, edit) => if prepared then edit(r, before) else before
  }

  /** The row that a token of request r is taken from. */
  function Edited(b: Batch, r: nat, row: seq<Val>): seq<Val> {
    if b.info.None? then row
    else
      var si := b.info.value;
      var processed := Apply(si.processor, r, row);
      var penalised :=
        if si.pen.Some? && si.pen.value.required then Penalise(si.pen.value.penalizers, r, processed) else processed;
      Apply(si.grammarMask, r, Apply(si.logitBias, r, penalised))
  }

  /** What the step hands on: a greedy token, or anything that depends on the logits. */
  datatype Seen = Token(id: nat) | Logits(row: seq<Val>)

  function SeenOf(b: Batch, r: nat, row: seq<Val>): Seen {
    var e := Edited(b, r, row);
    if b.returnLogprob || b.hasGrammar || (b.info.Some? && !b.info.value.allGreedy) || e == [] then Logits(e)
    else Token(Argmax(e))
  }

  /** min_new_tokens touches no id but the request's stop ids. */
  ghost predicate StopsOnly(b: Batch) {
    b.info.Some? && b.info.value.pen.Some? ==>
      forall p, r: nat, x | p in b.info.value.pen.value.penalizers && p.MinNewTokens? && r < |b.reqStops| ::
        x in p.kill(r) ==> x in b.reqStops[r]
  }

  /* ------------------------------------------------------------------------ when it is armed */

  function InsertAll(s: seq<int>, xs: seq<int>): (r: seq<int>)
    ensures forall y :: y in r <==> y in s || y in xs
    ensures Ascending(s) ==> Ascending(r)
    decreases |xs|
  {
    if xs == [] then s
    else
      assert xs == [xs[0]] + xs[1..];
      InsertAll(Insert(s, xs[0]), xs[1..])
  }

  /** sorted(set) of every request's stop ids. */
  function Stops(reqs: seq<seq<int>>): (r: seq<int>)
    ensures Ascending(r)
    ensures forall y :: y in r <==> exists i :: 0 <= i < |reqs| && y in reqs[i]
  {
    if reqs == [] then []
    else
      var n := |reqs| - 1;
      assert reqs == reqs[..n] + [reqs[n]];
      InsertAll(Stops(reqs[..n]), reqs[n])
  }

  /** step_armed: (armed, stop ids). */
  function StepArmed(b: Batch): (bool, seq<int>) {
    if b.returnLogprob || b.hasGrammar then (false, [])
    else if b.info.None? then (true, [])
    else
      var si := b.info.value;
      if !si.allGreedy || si.processor.Some? || si.logitBias.Some? || si.grammarMask.Some? then (false, [])
      else if si.pen.Some? && si.pen.value.required then
        var ps := si.pen.value.penalizers;
        if (exists i :: 0 <= i < |ps| && ps[i].prepared && !ps[i].MinNewTokens?) || |Stops(b.reqStops)| > NSTOP
        then (false, []) else (true, Stops(b.reqStops))
      else (true, [])
  }

  /** A step is armed exactly when nothing but min_new_tokens can edit its rows, only the greedy token is taken, and
      the stop ids that may be masked fit the slots. */
  lemma ArmedIff(b: Batch)
    ensures StepArmed(b).0 <==>
      && !b.returnLogprob && !b.hasGrammar
      && (b.info.Some? ==>
            var si := b.info.value;
            && si.allGreedy && si.processor.None? && si.logitBias.None? && si.grammarMask.None?
            && (si.pen.Some? && si.pen.value.required ==>
                  |Stops(b.reqStops)| <= NSTOP
                  && forall p | p in si.pen.value.penalizers && p.prepared :: p.MinNewTokens?))
    ensures StepArmed(b).0 && b.info.Some? && b.info.value.pen.Some? && b.info.value.pen.value.required ==>
              StepArmed(b).1 == Stops(b.reqStops)
  {}

  /** The ids that min_new_tokens sets to -inf in request r's row. */
  function Killed(ps: seq<Penalizer>, r: nat): set<int> {
    if ps == [] then {}
    else
      var p := ps[|ps| - 1];
      Killed(ps[..|ps| - 1], r) + if p.MinNewTokens? && p.prepared then p.kill(r) else {}
  }

  lemma {:induction false} OnlyKills(ps: seq<Penalizer>, r: nat, row: seq<Val>)
    requires forall p | p in ps && p.prepared :: p.MinNewTokens?
    ensures Penalise(ps, r, row) == PostMask(row, 0, Killed(ps, r))
    ensures forall x | x in Killed(ps, r) :: exists p :: p in ps && p.MinNewTokens? && x in p.kill(r)
  {
    if ps == [] {
      assert PostMask(row, 0, {}) == row;
    } else {
      var n := |ps| - 1;
      OnlyKills(ps[..n], r, row);
      var p := ps[n];
      if p.MinNewTokens? && p.prepared {
        var k := Killed(ps[..n], r);
        assert PostMask(PostMask(row, 0, k), 0, p.kill(r)) == PostMask(row, 0, k + p.kill(r));
      }
      assert forall q | q in ps[..n] :: q in ps;
    }
  }

  /** In an armed step a request's row only loses stop ids of that request, and only while a penalizer is required. */
  lemma ArmedEdits(b: Batch, r: nat) returns (kill: set<int>)
    requires StepArmed(b).0 && StopsOnly(b) && r < |b.reqStops|
    ensures forall row :: Edited(b, r, row) == PostMask(row, 0, kill)
    ensures forall x | x in kill ::
              x in b.reqStops[r] && b.info.Some? && b.info.value.pen.Some? && b.info.value.pen.value.required
  {
    ArmedIff(b);
    if b.info.Some? && b.info.value.pen.Some? && b.info.value.pen.value.required {
      var ps := b.info.value.pen.value.penalizers;
      kill := Killed(ps, r);
      forall row ensures Edited(b, r, row) == PostMask(row, 0, kill) { OnlyKills(ps, r, row); }
      OnlyKills(ps, r, []);
    } else {
      kill := {};
      forall row: seq<Val> ensures PostMask(row, 0, {}) == row {}
    }
  }

  /** Device buffers and the host's copy of what they hold. */
  class Buffers {
    var flag: int
    var flagHost: int
    const stop: array<int>
    var stopHost: seq<int>

    /** Slot j holds id j of the host's tuple, -1 behind it. */
    ghost predicate Valid()
      reads this, stop
    {
      && stop.Length == NSTOP && |stopHost| <= NSTOP
      && flag == flagHost && (flag == 0 || flag == 1)
      && forall j | 0 <= j < NSTOP :: stop[j] == if j < |stopHost| then stopHost[j] else -1
    }

    /** The default is full mode. */
    constructor ()
      ensures Valid() && flag == 0 && stopHost == [] && fresh(stop)
    {
      flag, flagHost, stopHost := 0, 0, [];
      stop := new int[NSTOP](_ => -1);
    }

    method SetFlag(armed: bool)
      requires Valid()
      modifies this`flag, this`flagHost
      ensures Valid() && (flag == 1 <==> armed)
    {
      var v := if armed then 1 else 0;
      if flagHost != v { flag, flagHost := v, v; }
    }

    /** The slots are rewritten only when the tuple changes. */
    method SetStop(ids: seq<int>)
      requires Valid() && |ids| <= NSTOP
      modifies this`stopHost, stop
      ensures Valid() && stopHost == ids
    {
      if stopHost == ids { return; }
      for j := 0 to NSTOP
        invariant forall k | 0 <= k < j :: stop[k] == if k < |ids| then ids[k] else -1
      {
        stop[j] := if j < |ids| then ids[j] else -1;
      }
      stopHost := ids;
    }

    /** Before every verify forward: whatever earlier steps left behind, the flag says whether this
        batch is armed, and the slots cover every stop id of a batch with a required penalizer. */
    method RunNonCompact(b: Batch)
      requires Valid()
      modifies this`flag, this`flagHost, this`stopHost, stop
      ensures Valid() && (flag == 1 <==> StepArmed(b).0)
      ensures flag == 1 && b.info.Some? && b.info.value.pen.Some? && b.info.value.pen.value.required ==>
                forall r, x | 0 <= r < |b.reqStops| && x in b.reqStops[r] :: x in stop[..]
    {
      ArmedIff(b);
      var (armed, stops) := StepArmed(b);
      if armed && stops != [] { SetStop(stops); }
      SetFlag(armed);
      forall x | armed && x in stops ensures x in stop[..] {
        var j :| 0 <= j < |stops| && stops[j] == x;
        assert stop[..][j] == x;
      }
    }

    /** Compact and idle forwards always compute full logits. */
    method RunCompactOrIdle()
      requires Valid()
      modifies this`flag, this`flagHost
      ensures Valid() && flag == 0
    {
      SetFlag(false);
    }
  }
}
