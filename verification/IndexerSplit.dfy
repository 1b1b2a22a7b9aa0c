/** The two loops of the indexer, each proved row by row against the selection of one row alone. */
module IndexerSplit {
  import opened Options
  import opened IntMath
  import opened Indexer

  /* ------------------------------------------------------------------ one chunk of rows */

  /** What the scorer returns for row r in the chunk that starts at c0. */
  function RawRow(e: Engine, c0: nat, r: nat, width: nat): (s: seq<Score>)
    requires r < |e.lens|
    ensures |s| == width
  {
    seq(width, j requires 0 <= j < width => if j < e.lens[r] then e.score(r, j) else e.noise(c0, r, j))
  }

  /** scores.masked_fill_ on the request's columns of one row. */
  function MaskRow(e: Engine, role: Role, reqs: seq<Request>, b: nat, r: nat, row: seq<Score>): (s: seq<Score>)
    requires r < |e.lens| && Of(reqs, b, r)
    ensures |s| == |row|
  {
    seq(|row|, j requires 0 <= j < |row| =>
      if j < reqs[b].width && ((role.Source? && j >= e.lens[r]) || Masked(role, reqs, b, r, j)) then NegInf else row[j])
  }

  /** Within its length a masked row is the wanted one, whatever the scorer left beyond it. */
  lemma MaskedPrefix(e: Engine, role: Role, reqs: seq<Request>, b: nat, r: nat, c0: nat, width: nat)
    requires Fits(e, role, reqs) && r < |e.lens| && Of(reqs, b, r) && reqs[b].width <= width
    ensures
      var row := MaskRow(e, role, reqs, b, r, RawRow(e, c0, r, width));
      && row[..e.lens[r]] == Wanted(e, role, reqs, b, r)
      && (role.Source? ==> row[..reqs[b].width] == SourceScores(e, reqs[b].width, r))
  {
    hide Sane;
    assert e.lens[r] <= reqs[b].width;
  }

  /** The ids part of a packed row: block ids of a source row, -1 elsewhere. */
  predicate IdsDone(e: Engine, role: Role, reqs: seq<Request>, b: nat, r: nat, ids: seq<int>)
    requires e.blockSize >= 1 && r < |e.lens| && Of(reqs, b, r)
  {
    role.Source? && reqs[b].width > 0 ==>
      var n := TakenBlocks(e, reqs[b].width);
      n <= |ids| && ids[..n] == BlockIds(e, SourceScores(e, reqs[b].width, r), e.lens[r])
  }

  /** A packed row of the all-gather: top-k ids, then block ids. */
  ghost predicate PackedRow(e: Engine, role: Role, reqs: seq<Request>, r: nat, row: seq<int>, wide: nat)
    requires Sane(e) && r < |e.lens| == Starts(reqs, |reqs|)
  {
    var b := RequestOf(reqs, r, |reqs|);
    && |row| == wide >= e.indexTopk
    && row[..e.indexTopk] == Selected(e, role, reqs, b, r) && IdsDone(e, role, reqs, b, r, row[e.indexTopk..])
  }

  predicate Wide(rows: seq<seq<int>>, wide: nat) { forall i | 0 <= i < |rows| :: |rows[i]| == wide }

  /** Of a chunk's logits, the rows of request b are masked and the others are as they were. */
  ghost predicate MasksRequest(e: Engine, role: Role, reqs: seq<Request>, b: nat, c0: nat, width: nat,
          was: seq<seq<Score>>, now: seq<seq<Score>>)
    requires b < |reqs| && c0 + |now| <= |e.lens|
  {
    && |was| == |now|
    && forall r: nat | c0 <= r < c0 + |now| :: now[r - c0] ==
         if reqs[b].width > 0 && Of(reqs, b, r) then MaskRow(e, role, reqs, b, r, RawRow(e, c0, r, width))
         else was[r - c0]
  }

  /** Of the packed rows, those of request b in the n-row chunk hold their block ids, the others are as they were. */
  ghost predicate PacksRequest(e: Engine, role: Role, reqs: seq<Request>, b: nat, c0: nat, start: nat, n: nat,
          was: seq<seq<int>>, now: seq<seq<int>>)
    requires e.blockSize >= 1 && c0 + n <= |e.lens|
  {
    && |was| == |now| && start <= c0 && c0 - start + n <= |now|
    && (forall i: nat | i < |now| && !(c0 - start <= i < c0 - start + n && Of(reqs, b, start + i)) :: now[i] == was[i])
    && (forall r: nat | c0 <= r < c0 + n && Of(reqs, b, r) ::
          |now[r - start]| >= e.indexTopk && IdsDone(e, role, reqs, b, r, now[r - start][e.indexTopk..]))
  }

  /** A packed row with block ids written behind its top-k ids. */
  function WithIds(row: seq<int>, topk: nat, ids: seq<int>): (r: seq<int>)
    requires topk + |ids| <= |row|
    ensures |r| == |row| && r[topk..][..|ids|] == ids
  {
    row[..topk] + ids + row[topk + |ids|..]
  }

  /** Write the block ids of a source's masked rows behind their top-k ids. */
  method PackRequest(e: Engine, reqs: seq<Request>, b: nat, c0: nat, start: nat, width: nat, wide: nat,
          logits: array<seq<Score>>, packed: array<seq<int>>)
    requires Fits(e, Source, reqs) && b < |reqs| && reqs[b].width <= width && start <= c0
    requires c0 + logits.Length <= |e.lens| && c0 - start + logits.Length <= packed.Length && Wide(packed[..], wide)
    requires wide >= e.indexTopk + TakenBlocks(e, reqs[b].width)
    requires forall r: nat | c0 <= r < c0 + logits.Length && Of(reqs, b, r) ::
               logits[r - c0] == MaskRow(e, Source, reqs, b, r, RawRow(e, c0, r, width))
    modifies packed
    ensures Wide(packed[..], wide)
    ensures PacksRequest(e, Source, reqs, b, c0, start, logits.Length, old(packed[..]), packed[..])
  {
    hide Fits, Sane, MaskRow, BlockIds, TakenBlocks, RawRow, IdsDone, WithIds;
    FitsSane(e, Source, reqs);
    var w, topk := reqs[b].width, e.indexTopk;
    forall r: nat | c0 <= r < c0 + logits.Length && Of(reqs, b, r)
      ensures OwnIds(e, reqs, b, r, BlockIds(e, logits[r - c0][..w], e.lens[r]))
    {
      MaskedIds(e, reqs, b, r, c0, width);
    }
    forall i | c0 - start <= i < c0 - start + logits.Length && Of(reqs, b, start + i) {
      packed[i] := WithIds(packed[i], topk, BlockIds(e, logits[i - (c0 - start)][..w], e.lens[start + i]));
    }
    forall r: nat | c0 <= r < c0 + logits.Length && Of(reqs, b, r)
      ensures IdsDone(e, Source, reqs, b, r, packed[r - start][topk..])
    {
      assert start + (r - start) == r && r - start - (c0 - start) == r - c0;
      OwnIdsDone(e, reqs, b, r, old(packed[..])[r - start], BlockIds(e, logits[r - c0][..w], e.lens[r]));
    }
  }

  /** Mask the rows of request b in the chunk and, for a source, pack their block ids. */
  method MaskRequest(e: Engine, role: Role, reqs: seq<Request>, b: nat, c0: nat, start: nat, width: nat, wide: nat,
          logits: array<seq<Score>>, packed: array<seq<int>>)
    requires Fits(e, role, reqs) && b < |reqs| && reqs[b].width <= width && start <= c0
    requires c0 + logits.Length <= |e.lens| && c0 - start + logits.Length <= packed.Length
    requires forall r: nat | c0 <= r < c0 + logits.Length && Of(reqs, b, r) :: logits[r - c0] == RawRow(e, c0, r, width)
    requires Wide(packed[..], wide)
    requires wide >= e.indexTopk && (role.Source? ==> wide >= e.indexTopk + TakenBlocks(e, reqs[b].width))
    modifies logits, packed
    ensures Wide(packed[..], wide)
    ensures MasksRequest(e, role, reqs, b, c0, width, old(logits[..]), logits[..])
    ensures PacksRequest(e, role, reqs, b, c0, start, logits.Length, old(packed[..]), packed[..])
  {
    hide Fits, Sane, MaskRow, TakenBlocks, RawRow, IdsDone;
    FitsSane(e, role, reqs);
    NothingToPack(e, role, reqs, b);
    if reqs[b].width == 0 { return; }
    forall i | 0 <= i < logits.Length && Of(reqs, b, c0 + i) {
      logits[i] := MaskRow(e, role, reqs, b, c0 + i, logits[i]);
    }
    ghost var rows := logits[..];
    forall r: nat | c0 <= r < c0 + logits.Length
      ensures rows[r - c0] == if Of(reqs, b, r) then MaskRow(e, role, reqs, b, r, RawRow(e, c0, r, width))
                              else old(logits[..])[r - c0]
    {
      assert c0 + (r - c0) == r;
    }
    assert MasksRequest(e, role, reqs, b, c0, width, old(logits[..]), rows);
    hide MasksRequest;
    if role.Source? { PackRequest(e, reqs, b, c0, start, width, wide, logits, packed); }
  }

  /** The block ids that row r has alone. */
  predicate OwnIds(e: Engine, reqs: seq<Request>, b: nat, r: nat, ids: seq<int>)
    requires e.blockSize >= 1 && r < |e.lens| && Of(reqs, b, r)
  {
    |ids| == TakenBlocks(e, reqs[b].width) && ids == BlockIds(e, SourceScores(e, reqs[b].width, r), e.lens[r])
  }

  lemma MaskedIds(e: Engine, reqs: seq<Request>, b: nat, r: nat, c0: nat, width: nat)
    requires Fits(e, Source, reqs) && r < |e.lens| && Of(reqs, b, r) && reqs[b].width <= width
    ensures
      var row := MaskRow(e, Source, reqs, b, r, RawRow(e, c0, r, width));
      OwnIds(e, reqs, b, r, BlockIds(e, row[..reqs[b].width], e.lens[r]))
  {
    hide MaskRow, RawRow, BlockIds, Fits;
    FitsSane(e, Source, reqs);
    hide Sane;
    MaskedPrefix(e, Source, reqs, b, r, c0, width);
    BlockIdsInRange(e, SourceScores(e, reqs[b].width, r), e.lens[r]);
  }

  lemma OwnIdsDone(e: Engine, reqs: seq<Request>, b: nat, r: nat, row: seq<int>, ids: seq<int>)
    requires e.blockSize >= 1 && r < |e.lens| && Of(reqs, b, r) && OwnIds(e, reqs, b, r, ids)
    requires e.indexTopk + |ids| <= |row|
    ensures IdsDone(e, Source, reqs, b, r, WithIds(row, e.indexTopk, ids)[e.indexTopk..])
  {
    hide WithIds, BlockIds, SourceScores;
  }

  /** Only source layers pack block ids, and only for requests with keys. */
  lemma NothingToPack(e: Engine, role: Role, reqs: seq<Request>, b: nat)
    requires e.blockSize >= 1 && b < |reqs|
    ensures !role.Source? || reqs[b].width == 0 ==> forall r: nat, ids: seq<int> | r < |e.lens| && Of(reqs, b, r) ::
              IdsDone(e, role, reqs, b, r, ids)
  {}

  lemma FitsSane(e: Engine, role: Role, reqs: seq<Request>)
    requires Fits(e, role, reqs)
    ensures Sane(e) && e.blockSize >= 1 && |e.lens| == |e.ks| == Starts(reqs, |reqs|)
  {}

  /** The row the masking loop leaves in the logits. */
  function MaskedRow(e: Engine, role: Role, reqs: seq<Request>, c0: nat, r: nat, width: nat): (s: seq<Score>)
    requires r < |e.lens| == Starts(reqs, |reqs|)
    ensures |s| == width
  {
    var b := RequestOf(reqs, r, |reqs|);
    var raw := RawRow(e, c0, r, width);
    if reqs[b].width > 0 then MaskRow(e, role, reqs, b, r, raw) else raw
  }

  /** Top-k of one row of the logits, as the engine's kernels compute it. */
  function PickRow(e: Engine, role: Role, r: nat, row: seq<Score>): seq<int>
    requires r < |e.lens| == |e.ks| && e.lens[r] <= |row|
  {
    var t := e.topk(row[..e.lens[r]], e.ks[r]);
    if role.Consumer? then e.maskTopk(row[..e.lens[r]], t, e.ks[r]) else t
  }

  lemma PickIsSelected(e: Engine, role: Role, reqs: seq<Request>, c0: nat, r: nat, width: nat)
    requires Fits(e, role, reqs) && r < |e.lens| && reqs[RequestOf(reqs, r, |reqs|)].width <= width
    ensures e.lens[r] <= width
    ensures PickRow(e, role, r, MaskedRow(e, role, reqs, c0, r, width))
            == Selected(e, role, reqs, RequestOf(reqs, r, |reqs|), r)
    ensures |Selected(e, role, reqs, RequestOf(reqs, r, |reqs|), r)| == e.indexTopk
  {
    var b := RequestOf(reqs, r, |reqs|);
    MaskedPrefix(e, role, reqs, b, r, c0, width);
    if reqs[b].width == 0 { assert Wanted(e, role, reqs, b, r) == []; }
  }

  predicate AllWithin(reqs: seq<Request>, width: nat) { forall b | 0 <= b < |reqs| :: reqs[b].width <= width }

  ghost predicate Untouched(a: seq<seq<int>>, b: seq<seq<int>>, lo: nat, hi: nat) {
    |a| == |b| && forall i: nat | i < |a| && !(lo <= i < hi) :: a[i] == b[i]
  }

  ghost predicate RoomFor(e: Engine, role: Role, reqs: seq<Request>, wide: nat)
    requires e.blockSize >= 1
  {
    && wide >= e.indexTopk
    && (role.Source? ==> forall b: nat | b < |reqs| :: wide >= e.indexTopk + TakenBlocks(e, reqs[b].width))
  }

  /** Row r of the chunk is masked by its own request and its block ids are packed. */
  ghost predicate RowMasked(e: Engine, role: Role, reqs: seq<Request>, c0: nat, start: nat, width: nat,
          logits: seq<seq<Score>>, packed: seq<seq<int>>, r: nat)
    requires e.blockSize >= 1 && r < |e.lens| == Starts(reqs, |reqs|)
  {
    && start <= c0 <= r < c0 + |logits| && r - start < |packed| && |packed[r - start]| >= e.indexTopk
    && logits[r - c0] == MaskedRow(e, role, reqs, c0, r, width)
    && IdsDone(e, role, reqs, RequestOf(reqs, r, |reqs|), r, packed[r - start][e.indexTopk..])
  }

  /** The chunk's rows of the first b requests are done, the others still raw. */
  ghost predicate MaskedUpTo(e: Engine, role: Role, reqs: seq<Request>, b: nat, c0: nat, start: nat, width: nat,
          logits: seq<seq<Score>>, packed: seq<seq<int>>)
    requires e.blockSize >= 1 && b <= |reqs| && c0 + |logits| <= |e.lens| == Starts(reqs, |reqs|)
  {
    && (forall r: nat | c0 <= r < c0 + |logits| && r >= Starts(reqs, b) :: logits[r - c0] == RawRow(e, c0, r, width))
    && (forall r: nat | c0 <= r < c0 + |logits| && r < Starts(reqs, b) ::
          RowMasked(e, role, reqs, c0, start, width, logits, packed, r))
  }

  lemma MaskStep(e: Engine, role: Role, reqs: seq<Request>, b: nat, c0: nat, start: nat, width: nat,
          was: seq<seq<Score>>, ids: seq<seq<int>>, logits: seq<seq<Score>>, packed: seq<seq<int>>)
    requires e.blockSize >= 1 && b < |reqs| && |was| == |logits| && c0 + |logits| <= |e.lens| == Starts(reqs, |reqs|)
    requires MaskedUpTo(e, role, reqs, b, c0, start, width, was, ids)
    requires MasksRequest(e, role, reqs, b, c0, width, was, logits)
    requires PacksRequest(e, role, reqs, b, c0, start, |logits|, ids, packed)
    ensures MaskedUpTo(e, role, reqs, b + 1, c0, start, width, logits, packed)
  {
    hide IdsDone, MaskRow, RawRow;
    forall r: nat | c0 <= r < c0 + |logits| && r < Starts(reqs, b + 1)
      ensures RowMasked(e, role, reqs, c0, start, width, logits, packed, r)
    {
      if r >= Starts(reqs, b) {
        OfUnique(reqs, b, RequestOf(reqs, r, |reqs|), r);
      } else {
        assert RowMasked(e, role, reqs, c0, start, width, was, ids, r);
        assert !Of(reqs, b, start + (r - start));
      }
    }
  }

  /** The masking loop over the requests of one chunk. */
  method MaskChunk(e: Engine, role: Role, reqs: seq<Request>, c0: nat, start: nat, width: nat, wide: nat,
          logits: array<seq<Score>>, packed: array<seq<int>>)
    requires Fits(e, role, reqs) && AllWithin(reqs, width) && RoomFor(e, role, reqs, wide) && start <= c0
    requires c0 + logits.Length <= |e.lens| && c0 - start + logits.Length <= packed.Length && Wide(packed[..], wide)
    requires forall r: nat | c0 <= r < c0 + logits.Length :: logits[r - c0] == RawRow(e, c0, r, width)
    modifies logits, packed
    ensures Wide(packed[..], wide) && Untouched(packed[..], old(packed[..]), c0 - start, c0 - start + logits.Length)
    ensures forall r: nat | c0 <= r < c0 + logits.Length ::
              RowMasked(e, role, reqs, c0, start, width, logits[..], packed[..], r)
  {
    hide Fits, Sane, RowMasked, Blocks, MasksRequest, IdsDone;
    FitsSane(e, role, reqs);
    var b := 0;
    while b < |reqs|
      invariant b <= |reqs| && Wide(packed[..], wide)
      invariant Untouched(packed[..], old(packed[..]), c0 - start, c0 - start + logits.Length)
      invariant MaskedUpTo(e, role, reqs, b, c0, start, width, logits[..], packed[..])
    {
      ghost var was, ids := logits[..], packed[..];
      MaskRequest(e, role, reqs, b, c0, start, width, wide, logits, packed);
      MaskStep(e, role, reqs, b, c0, start, width, was, ids, logits[..], packed[..]);
      b := b + 1;
    }
  }

  ghost predicate PackedAt(e: Engine, role: Role, reqs: seq<Request>, start: nat, rows: seq<seq<int>>, wide: nat,
          i: nat)
    requires Sane(e) && |e.lens| == Starts(reqs, |reqs|)
  {
    i < |rows| && start + i < |e.lens| && PackedRow(e, role, reqs, start + i, rows[i], wide)
  }

  /** Packed rows lo..hi, of which row 0 is query row `start`, are final. */
  ghost predicate Done(e: Engine, role: Role, reqs: seq<Request>, start: nat, rows: seq<seq<int>>, wide: nat,
          lo: nat, hi: nat)
    requires Sane(e) && |e.lens| == Starts(reqs, |reqs|)
  {
    forall i: nat | lo <= i < hi :: PackedAt(e, role, reqs, start, rows, wide, i)
  }

  lemma DoneGrows(e: Engine, role: Role, reqs: seq<Request>, start: nat, was: seq<seq<int>>, rows: seq<seq<int>>,
          wide: nat, mid: nat, hi: nat)
    requires Sane(e) && |e.lens| == Starts(reqs, |reqs|)
    requires Done(e, role, reqs, start, was, wide, 0, mid) && Untouched(rows, was, mid, hi)
    requires Done(e, role, reqs, start, rows, wide, mid, hi)
    ensures Done(e, role, reqs, start, rows, wide, 0, hi)
  {
    hide PackedRow, Sane;
    forall i: nat | i < hi ensures PackedAt(e, role, reqs, start, rows, wide, i) {
      if i < mid { assert PackedAt(e, role, reqs, start, was, wide, i); }
    }
  }

  /** One row chunk: score, mask and pack the requests it meets, then select. */
  method SelectChunk(e: Engine, role: Role, reqs: seq<Request>, c0: nat, c1: nat, start: nat, width: nat, wide: nat,
          packed: array<seq<int>>)
    requires Fits(e, role, reqs) && AllWithin(reqs, width) && RoomFor(e, role, reqs, wide)
    requires start <= c0 <= c1 <= |e.lens| && c1 - start <= packed.Length && Wide(packed[..], wide)
    modifies packed
    ensures Wide(packed[..], wide) && Untouched(packed[..], old(packed[..]), c0 - start, c1 - start)
    ensures Done(e, role, reqs, start, packed[..], wide, c0 - start, c1 - start)
  {
    hide Fits, Sane, RowMasked, PackedRow, PickRow, RawRow, RoomFor;
    FitsSane(e, role, reqs);
    var logits := new seq<Score>[c1 - c0](i requires 0 <= i < c1 - c0 => RawRow(e, c0, c0 + i, width));
    MaskChunk(e, role, reqs, c0, start, width, wide, logits, packed);
    ghost var rows, ids := logits[..], packed[..];
    forall i: nat | c0 - start <= i < c1 - start
      ensures Picks(e, role, reqs, start + i, logits[start + i - c0], packed[i], wide)
      ensures Picks(e, role, reqs, start + i, rows[start + i - c0], ids[i], wide)
    {
      MaskedPicks(e, role, reqs, c0, start, width, wide, rows, ids, start + i);
    }
    forall r: nat | c0 <= r < c1 ensures e.lens[r] <= |logits[r - c0]| {
      assert Picks(e, role, reqs, start + (r - start), rows[r - c0], ids[r - start], wide);
    }
    forall i | c0 - start <= i < c1 - start {
      packed[i] := PickRow(e, role, start + i, logits[start + i - c0]) + packed[i][e.indexTopk..];
    }
    forall i: nat | c0 - start <= i < c1 - start ensures PackedAt(e, role, reqs, start, packed[..], wide, i) {
      assert Picks(e, role, reqs, start + i, rows[start + i - c0], ids[i], wide);
    }
  }

  /** Selecting from `row` in front of the block ids in `ids` makes the packed row of r. */
  ghost predicate Picks(e: Engine, role: Role, reqs: seq<Request>, r: nat, row: seq<Score>, ids: seq<int>, wide: nat)
    requires Sane(e) && r < |e.lens| == |e.ks| == Starts(reqs, |reqs|)
  {
    && e.lens[r] <= |row| && e.indexTopk <= |ids|
    && var p := PickRow(e, role, r, row) + ids[e.indexTopk..]; |p| == wide && PackedRow(e, role, reqs, r, p, wide)
  }

  lemma MaskedPicks(e: Engine, role: Role, reqs: seq<Request>, c0: nat, start: nat, width: nat, wide: nat,
          logits: seq<seq<Score>>, ids: seq<seq<int>>, r: nat)
    requires Fits(e, role, reqs) && AllWithin(reqs, width) && Wide(ids, wide)
    requires r < |e.lens| && RowMasked(e, role, reqs, c0, start, width, logits, ids, r)
    ensures Picks(e, role, reqs, r, logits[r - c0], ids[r - start], wide)
  {
    hide Fits, IdsDone, MaskedRow, PickRow, Selected;
    FitsSane(e, role, reqs);
    hide Sane;
    PickIsSelected(e, role, reqs, c0, r, width);
    var head, tail := PickRow(e, role, r, logits[r - c0]), ids[r - start][e.indexTopk..];
    assert (head + tail)[..e.indexTopk] == head && (head + tail)[e.indexTopk..] == tail;
  }

  /** A row's selection, from the engine's kernels and the published mask alone: a consumer ranks the columns that
      its mask keeps, and masks once more. */
  lemma SelectedIs(e: Engine, role: Role, reqs: seq<Request>, b: nat, r: nat, s: seq<Score>)
    requires Fits(e, role, reqs) && Of(reqs, b, r) && r < |e.lens| && reqs[b].width > 0 && |s| == e.lens[r]
    requires forall j: nat | j < |s| :: s[j] ==
               if role.Consumer? && !role.masks[b][r - Starts(reqs, b)][j] then NegInf else e.score(r, j)
    ensures Selected(e, role, reqs, b, r) ==
              if role.Consumer? then e.maskTopk(s, e.topk(s, e.ks[r]), e.ks[r]) else e.topk(s, e.ks[r])
  {
    hide Sane;
    FitsSane(e, role, reqs);
    var w := Wanted(e, role, reqs, b, r);
    forall j: nat | j < |s| ensures w[j] == s[j] {
      assert w[j] == if Masked(role, reqs, b, r, j) then NegInf else e.score(r, j);
      if role.Consumer? { assert |role.masks[b][r - Starts(reqs, b)]| == reqs[b].width; }
    }
    assert w == s;
  }

  /* ----------------------------------------------------------------- partition and budget */

  const TILE: nat := 128

  /** Rows per rank: whole tiles, enough to cover every row. */
  function Extent(rows: nat, world: nat): (x: nat)
    requires world >= 1
    ensures rows <= Mul(world, x) && x % TILE == 0 && (x > 0 ==> Mul(world, x - TILE) < rows)
  {
    var n := Quotient(rows + world * TILE - 1, world * TILE);
    assert world * (n * TILE) == n * (world * TILE);
    n * TILE
  }

  /** As many rows as fit the byte budget, at least one. */
  function RowsPerChunk(budget: nat, bytes: nat): (n: nat)
    requires bytes >= 1
    ensures n >= 1 && (n * bytes <= budget || n == 1)
  {
    var q := Quotient(budget, bytes);
    if q >= 1 then q else 1
  }

  function MaxWidth(reqs: seq<Request>): (w: nat)
    ensures AllWithin(reqs, w)
  {
    if reqs == [] then 0
    else
      var w, last := MaxWidth(reqs[..|reqs| - 1]), reqs[|reqs| - 1].width;
      assert reqs == reqs[..|reqs| - 1] + [reqs[|reqs| - 1]];
      if last > w then last else w
  }

  function Align4(w: nat): (a: nat)
    ensures w <= a
  {
    (w + 3) / 4 * 4
  }

  function PackedWidth(e: Engine, role: Role, reqs: seq<Request>): nat
    requires e.blockSize >= 1
  {
    e.indexTopk + if role.Source? then TakenBlocks(e, MaxWidth(reqs)) else 0
  }

  lemma PackedWidthFits(e: Engine, role: Role, reqs: seq<Request>)
    requires e.blockSize >= 1
    ensures RoomFor(e, role, reqs, PackedWidth(e, role, reqs))
  {
    forall b: nat | b < |reqs| ensures Blocks(reqs[b].width, e.blockSize) <= Blocks(MaxWidth(reqs), e.blockSize) {
      QuotientMono(reqs[b].width + e.blockSize - 1, MaxWidth(reqs) + e.blockSize - 1, e.blockSize);
    }
  }

  /** How many of the rows a rank owns exist. */
  function Mine(rows: nat, extent: nat, rank: nat): (n: nat)
    ensures n <= extent
  {
    if Mul(rank, extent) >= rows then 0 else Min(rows - Mul(rank, extent), extent)
  }

  /** Every row is owned by exactly one rank. */
  lemma PartitionExact(rows: nat, world: nat, r: nat) returns (k: nat)
    requires world >= 1 && r < rows
    ensures var x := Extent(rows, world); k < world && k * x <= r < k * x + Mine(rows, x, k)
    ensures var x := Extent(rows, world);
            forall a: nat | a < world && a * x <= r < a * x + Mine(rows, x, a) :: a == k
  {
    var x := Extent(rows, world);
    hide Extent;
    k := Quotient(r, x);
    if k >= world { MulMono(world, k, x); }
    forall a: nat | a < world && a * x <= r < a * x + Mine(rows, x, a) ensures a == k { QuotientIs(r, x, a); }
  }

  /** _split_local: this rank's rows, chunk by chunk, in packed form; rows past its slice stay -1. */
  method SplitLocal(e: Engine, role: Role, reqs: seq<Request>, budget: nat, world: nat, rank: nat)
    returns (out: seq<seq<int>>)
    requires Fits(e, role, reqs) && rank < world && MaxWidth(reqs) > 0
    ensures
      var extent := Extent(|e.lens|, world);
      && |out| == extent && Wide(out, PackedWidth(e, role, reqs))
      && Done(e, role, reqs, Mul(rank, extent), out, PackedWidth(e, role, reqs), 0, Mine(|e.lens|, extent, rank))
  {
    hide Fits, Done, Untouched, Extent, PackedWidth, Mul;
    FitsSane(e, role, reqs);
    var rows, extent, wide := |e.lens|, Extent(|e.lens|, world), PackedWidth(e, role, reqs);
    PackedWidthFits(e, role, reqs);
    var start := Mul(rank, extent);
    var end := Min(rows, start + extent);
    var packed := new seq<int>[extent](i => Fill(wide));
    NothingDone(e, role, reqs, start, packed[..], wide);
    if start >= end { return packed[..]; }
    var width := Align4(MaxWidth(reqs));
    var step := RowsPerChunk(budget, width * 4);
    var c0 := start;
    while c0 < end
      invariant start <= c0 <= end && Wide(packed[..], wide)
      invariant Done(e, role, reqs, start, packed[..], wide, 0, c0 - start)
    {
      var c1 := Min(c0 + step, end);
      ghost var was := packed[..];
      SelectChunk(e, role, reqs, c0, c1, start, width, wide, packed);
      DoneGrows(e, role, reqs, start, was, packed[..], wide, c0 - start, c1 - start);
      c0 := c1;
    }
    out := packed[..];
  }

  lemma NothingDone(e: Engine, role: Role, reqs: seq<Request>, start: nat, rows: seq<seq<int>>, wide: nat)
    requires Sane(e) && |e.lens| == Starts(reqs, |reqs|)
    ensures Done(e, role, reqs, start, rows, wide, 0, 0)
  {}

  /* ------------------------------------------------------------------ results and masks */

  ghost predicate SelectedAt(e: Engine, role: Role, reqs: seq<Request>, rows: seq<seq<int>>, r: nat)
    requires Sane(e) && |e.lens| == Starts(reqs, |reqs|)
  {
    r < |rows| && r < |e.lens| && rows[r] == Selected(e, role, reqs, RequestOf(reqs, r, |reqs|), r)
  }

  /** Every row holds its own selection. */
  ghost predicate Selects(e: Engine, role: Role, reqs: seq<Request>, rows: seq<seq<int>>)
    requires Sane(e) && |e.lens| == Starts(reqs, |reqs|)
  {
    |rows| == |e.lens| && forall r: nat | r < |rows| :: SelectedAt(e, role, reqs, rows, r)
  }

  /** m is the candidate mask of query row r. */
  ghost predicate MaskAt(e: Engine, w: nat, r: nat, m: seq<bool>)
    requires Sane(e)
  {
    r < |e.lens| && |m| == w && forall j: nat | j < w :: m[j] <==> Kept(e, SourceScores(e, w, r), e.lens[r], j)
  }

  /** Rows of request b to publish: all of them, or the late layers' tail. */
  function Pub(reqs: seq<Request>, publish: Option<seq<nat>>, b: nat): (n: nat)
    requires b < |reqs| && (publish.Some? ==> |publish.value| == |reqs|)
    ensures n <= reqs[b].count
  {
    if publish.None? then reqs[b].count else Min(publish.value[b], reqs[b].count)
  }

  ghost predicate TailMask(e: Engine, reqs: seq<Request>, b: nat, pub: nat, mask: seq<seq<bool>>)
    requires Sane(e) && b < |reqs| && pub <= reqs[b].count
  {
    if reqs[b].width == 0 || reqs[b].count == 0 then mask == []
    else
      && |mask| == pub
      && forall i: nat | i < pub :: MaskAt(e, reqs[b].width, Starts(reqs, b) + reqs[b].count - pub + i, mask[i])
  }

  /** The masks are the tail rows of the full candidate masks. */
  ghost predicate Publishes(e: Engine, reqs: seq<Request>, publish: Option<seq<nat>>, masks: seq<seq<seq<bool>>>)
    requires Sane(e) && (publish.Some? ==> |publish.value| == |reqs|)
  {
    |masks| == |reqs| && forall b: nat | b < |reqs| :: TailMask(e, reqs, b, Pub(reqs, publish, b), masks[b])
  }

  /* --------------------------------------------------------------------- the split path */

  lemma GatherGrows(e: Engine, role: Role, reqs: seq<Request>, got: seq<seq<int>>, out: seq<seq<int>>, wide: nat,
          extent: nat, rank: nat)
    requires Sane(e) && |e.lens| == Starts(reqs, |reqs|) && |got| == Mul(rank, extent) && |out| == extent
    requires Done(e, role, reqs, 0, got, wide, 0, Min(|e.lens|, Mul(rank, extent)))
    requires Done(e, role, reqs, Mul(rank, extent), out, wide, 0, Mine(|e.lens|, extent, rank))
    ensures Done(e, role, reqs, 0, got + out, wide, 0, Min(|e.lens|, Mul(rank, extent) + extent))
  {
    hide PackedRow, Sane, Mul;
    var at := Mul(rank, extent);
    forall i: nat | i < Min(|e.lens|, at + extent) ensures PackedAt(e, role, reqs, 0, got + out, wide, i) {
      if i < at {
        assert PackedAt(e, role, reqs, 0, got, wide, i);
      } else {
        assert PackedAt(e, role, reqs, at, out, wide, i - at);
      }
    }
  }

  /** The mask of one gathered row, rebuilt from its block ids. */
  method RowMask(e: Engine, reqs: seq<Request>, b: nat, r: nat, row: seq<int>, wide: nat) returns (m: seq<bool>)
    requires Fits(e, Source, reqs) && Of(reqs, b, r) && r < |e.lens| && reqs[b].width > 0
    requires PackedRow(e, Source, reqs, r, row, wide)
    ensures MaskAt(e, reqs[b].width, r, m)
  {
    OfUnique(reqs, b, RequestOf(reqs, r, |reqs|), r);
    var w := reqs[b].width;
    var n := TakenBlocks(e, w);
    var ids := row[e.indexTopk..][..n];
    ghost var s := SourceScores(e, w, r);
    assert ids == BlockIds(e, s, e.lens[r]);
    BlockIdsInRange(e, s, e.lens[r]);
    m := CandidateMask(ids, w, e.blockSize);
    hide Sane, BlockIds, Kept, CandidateMask;
    forall j: nat | j < w ensures m[j] <==> Kept(e, s, e.lens[r], j) { MaskFromIds(e, s, e.lens[r], j); }
  }

  method TailMasks(e: Engine, reqs: seq<Request>, b: nat, pub: nat, gathered: seq<seq<int>>, wide: nat)
    returns (mask: seq<seq<bool>>)
    requires Fits(e, Source, reqs) && b < |reqs| && pub <= reqs[b].count && |e.lens| <= |gathered|
    requires Done(e, Source, reqs, 0, gathered, wide, 0, |e.lens|)
    ensures TailMask(e, reqs, b, pub, mask)
  {
    hide PackedRow, MaskAt;
    FitsSane(e, Source, reqs);
    mask := [];
    if reqs[b].width == 0 || reqs[b].count == 0 { return; }
    var first := Starts(reqs, b) + reqs[b].count - pub;
    StartsMono(reqs, b + 1, |reqs|);
    while |mask| < pub
      invariant |mask| <= pub
      invariant forall i: nat | i < |mask| :: MaskAt(e, reqs[b].width, first + i, mask[i])
    {
      var r := first + |mask|;
      assert PackedAt(e, Source, reqs, 0, gathered, wide, r);
      var m := RowMask(e, reqs, b, r, gathered[r], wide);
      mask := mask + [m];
    }
  }

  lemma CutDone(e: Engine, role: Role, reqs: seq<Request>, rows: seq<seq<int>>, wide: nat)
    requires Sane(e) && |e.lens| == Starts(reqs, |reqs|) <= |rows| && Done(e, role, reqs, 0, rows, wide, 0, |e.lens|)
    ensures Done(e, role, reqs, 0, rows[..|e.lens|], wide, 0, |e.lens|)
  {
    hide PackedRow, Sane;
    forall i: nat | i < |e.lens| ensures PackedAt(e, role, reqs, 0, rows[..|e.lens|], wide, i) {
      assert PackedAt(e, role, reqs, 0, rows, wide, i);
    }
  }

  /** all_gather of every rank's packed rows, cut to the rows that exist. */
  method GatherAll(e: Engine, role: Role, reqs: seq<Request>, budget: nat, world: nat) returns (gathered: seq<seq<int>>)
    requires Fits(e, role, reqs) && world >= 1 && MaxWidth(reqs) > 0
    ensures |gathered| == |e.lens| && Done(e, role, reqs, 0, gathered, PackedWidth(e, role, reqs), 0, |e.lens|)
  {
    hide Fits, Sane, Extent, Done, PackedWidth, Mul;
    FitsSane(e, role, reqs);
    var extent, wide := Extent(|e.lens|, world), PackedWidth(e, role, reqs);
    gathered := [];
    NothingDone(e, role, reqs, 0, gathered, wide);
    MulStep(0, world, extent);
    var rank := 0;
    while rank < world
      invariant rank <= world && |gathered| == Mul(rank, extent)
      invariant Done(e, role, reqs, 0, gathered, wide, 0, Min(|e.lens|, Mul(rank, extent)))
    {
      var out := SplitLocal(e, role, reqs, budget, world, rank);
      GatherGrows(e, role, reqs, gathered, out, wide, extent, rank);
      MulStep(rank, world, extent);
      gathered := gathered + out;
      rank := rank + 1;
    }
    CutDone(e, role, reqs, gathered, wide);
    gathered := gathered[..|e.lens|];
  }

  /** _split_select: every rank scores its own rows, the packed ids are gathered, and each row ends
      with the selection it has alone and each source request with its published mask. */
  method SplitSelect(e: Engine, role: Role, reqs: seq<Request>, budget: nat, world: nat, publish: Option<seq<nat>>)
    returns (selected: seq<seq<int>>, masks: seq<seq<seq<bool>>>)
    requires Fits(e, role, reqs) && world >= 1 && MaxWidth(reqs) > 0 && (publish.Some? ==> |publish.value| == |reqs|)
    ensures Selects(e, role, reqs, selected)
    ensures role.Source? ==> Publishes(e, reqs, publish, masks)
  {
    hide Fits, PackedRow, TailMask, Selected, PackedWidth;
    FitsSane(e, role, reqs);
    var gathered := GatherAll(e, role, reqs, budget, world);
    ghost var wide := PackedWidth(e, role, reqs);
    forall r: nat | r < |e.lens|
      ensures |gathered[r]| >= e.indexTopk
      ensures gathered[r][..e.indexTopk] == Selected(e, role, reqs, RequestOf(reqs, r, |reqs|), r)
    {
      assert PackedAt(e, role, reqs, 0, gathered, wide, r);
      PackedSelects(e, role, reqs, r, gathered[r], wide);
    }
    selected := seq(|e.lens|, r requires 0 <= r < |e.lens| => gathered[r][..e.indexTopk]);
    masks := [];
    if role.Source? {
      while |masks| < |reqs|
        invariant |masks| <= |reqs|
        invariant forall b: nat | b < |masks| :: TailMask(e, reqs, b, Pub(reqs, publish, b), masks[b])
      {
        var mask := TailMasks(e, reqs, |masks|, Pub(reqs, publish, |masks|), gathered, PackedWidth(e, role, reqs));
        masks := masks + [mask];
      }
    }
  }

  lemma PackedSelects(e: Engine, role: Role, reqs: seq<Request>, r: nat, row: seq<int>, wide: nat)
    requires Sane(e) && r < |e.lens| == Starts(reqs, |reqs|) && PackedRow(e, role, reqs, r, row, wide)
    ensures |row| >= e.indexTopk && row[..e.indexTopk] == Selected(e, role, reqs, RequestOf(reqs, r, |reqs|), r)
  {}

  /* ----------------------------------------------------------------- the unsplit path */

  function SelectBlocks(e: Engine, s: seq<Score>, len: nat): (m: seq<bool>)
    requires e.blockSize >= 1
    ensures |m| == |s| && forall j: nat | j < |s| :: m[j] <==> Kept(e, s, len, j)
  {
    seq(|s|, j requires 0 <= j < |s| => Kept(e, s, len, j))
  }

  ghost predicate RowsSelected(e: Engine, role: Role, reqs: seq<Request>, rows: seq<seq<int>>, lo: nat, hi: nat)
    requires Sane(e) && |e.lens| == Starts(reqs, |reqs|)
  {
    forall r: nat | lo <= r < hi :: SelectedAt(e, role, reqs, rows, r)
  }

  /** A masked row of request b picks its own selection and, for a source, scores as its own. */
  lemma DensePicks(e: Engine, role: Role, reqs: seq<Request>, b: nat, c0: nat, r: nat, width: nat)
    requires Fits(e, role, reqs) && r < |e.lens| && Of(reqs, b, r) && 0 < reqs[b].width <= width
    ensures
      var row := MaskRow(e, role, reqs, b, r, RawRow(e, c0, r, width));
      && e.lens[r] <= |row| && PickRow(e, role, r, row) == Selected(e, role, reqs, RequestOf(reqs, r, |reqs|), r)
      && (role.Source? ==> row[..reqs[b].width] == SourceScores(e, reqs[b].width, r))
  {
    hide Fits, MaskRow, RawRow, PickRow, Selected;
    FitsSane(e, role, reqs);
    OfUnique(reqs, b, RequestOf(reqs, r, |reqs|), r);
    MaskedPrefix(e, role, reqs, b, r, c0, width);
    PickIsSelected(e, role, reqs, c0, r, width);
  }

  /** One row chunk of one request: select its rows, and fill its part of the published tail mask. */
  method DenseChunk(e: Engine, role: Role, reqs: seq<Request>, b: nat, c0: nat, c1: nat, width: nat, firstPub: nat,
          selected: array<seq<int>>, mask: array<seq<bool>>)
    requires Fits(e, role, reqs) && b < |reqs| && 0 < reqs[b].width <= width && selected.Length == |e.lens|
    requires Starts(reqs, b) <= c0 < c1 <= Starts(reqs, b + 1)
    requires role.Source? ==> Starts(reqs, b) <= firstPub && firstPub + mask.Length == Starts(reqs, b + 1)
    modifies selected, mask
    ensures Untouched(selected[..], old(selected[..]), c0, c1) && RowsSelected(e, role, reqs, selected[..], c0, c1)
    ensures role.Source? ==> forall i: nat | i < mask.Length ::
              if c0 <= firstPub + i < c1 then MaskAt(e, reqs[b].width, firstPub + i, mask[i])
              else mask[i] == old(mask[i])
  {
    hide Fits, Sane, Selected, MaskRow, RawRow, Kept, PickRow, SourceScores;
    FitsSane(e, role, reqs);
    StartsMono(reqs, b + 1, |reqs|);
    var w := reqs[b].width;
    var logits := new seq<Score>[c1 - c0](i requires 0 <= i < c1 - c0 =>
      MaskRow(e, role, reqs, b, c0 + i, RawRow(e, c0, c0 + i, width)));
    forall i | 0 <= i < c1 - c0 ensures |logits[i]| == width {
      assert logits[i] == MaskRow(e, role, reqs, b, c0 + i, RawRow(e, c0, c0 + i, width));
    }
    forall r: nat | c0 <= r < c1
      ensures e.lens[r] <= |logits[r - c0]|
      ensures PickRow(e, role, r, logits[r - c0]) == Selected(e, role, reqs, RequestOf(reqs, r, |reqs|), r)
      ensures role.Source? ==> logits[r - c0][..w] == SourceScores(e, w, r)
    {
      assert logits[r - c0] == MaskRow(e, role, reqs, b, r, RawRow(e, c0, r, width));
      DensePicks(e, role, reqs, b, c0, r, width);
    }
    if role.Source? {
      forall i | 0 <= i < mask.Length && c0 <= firstPub + i < c1 {
        mask[i] := SelectBlocks(e, logits[firstPub + i - c0][..w], e.lens[firstPub + i]);
      }
    }
    forall r | c0 <= r < c1 { selected[r] := PickRow(e, role, r, logits[r - c0]); }
    if role.Source? {
      forall i: nat | i < mask.Length && c0 <= firstPub + i < c1 ensures MaskAt(e, w, firstPub + i, mask[i]) {
        var r := firstPub + i;
        assert logits[r - c0][..w] == SourceScores(e, w, r);
      }
    }
  }

  /** The chunk loop of one request. */
  method DenseRequest(e: Engine, role: Role, reqs: seq<Request>, b: nat, budget: nat, pub: nat,
          selected: array<seq<int>>)
    returns (mask: array<seq<bool>>)
    requires Fits(e, role, reqs) && b < |reqs| && reqs[b].width > 0 && pub <= reqs[b].count
    requires selected.Length == |e.lens|
    modifies selected
    ensures Untouched(selected[..], old(selected[..]), Starts(reqs, b), Starts(reqs, b + 1))
    ensures RowsSelected(e, role, reqs, selected[..], Starts(reqs, b), Starts(reqs, b + 1))
    ensures mask.Length == pub && fresh(mask)
    ensures role.Source? ==> forall i: nat | i < pub :: MaskAt(e, reqs[b].width, Starts(reqs, b + 1) - pub + i, mask[i])
  {
    hide Fits, Sane, MaskAt, SelectedAt;
    FitsSane(e, role, reqs);
    var s0, s1 := Starts(reqs, b), Starts(reqs, b + 1);
    var width := Align4(reqs[b].width);
    var step := RowsPerChunk(budget, width * 4);
    var firstPub := s1 - pub;
    mask := new seq<bool>[pub](i => []);
    var c0 := s0;
    while c0 < s1
      invariant s0 <= c0 <= s1 && Untouched(selected[..], old(selected[..]), s0, s1)
      invariant RowsSelected(e, role, reqs, selected[..], s0, c0)
      invariant role.Source? ==> forall i: nat | i < pub && firstPub + i < c0 ::
                  MaskAt(e, reqs[b].width, firstPub + i, mask[i])
    {
      var c1 := Min(c0 + step, s1);
      ghost var was, kept := selected[..], mask[..];
      DenseChunk(e, role, reqs, b, c0, c1, width, firstPub, selected, mask);
      SelectedGrows(e, role, reqs, was, selected[..], s0, c0, c1);
      c0 := c1;
    }
  }

  lemma SelectedGrows(e: Engine, role: Role, reqs: seq<Request>, was: seq<seq<int>>, rows: seq<seq<int>>, lo: nat,
          mid: nat, hi: nat)
    requires Sane(e) && |e.lens| == Starts(reqs, |reqs|)
    requires RowsSelected(e, role, reqs, was, lo, mid) && Untouched(rows, was, mid, hi)
    requires RowsSelected(e, role, reqs, rows, mid, hi)
    ensures RowsSelected(e, role, reqs, rows, lo, hi)
  {
    hide Selected, Sane;
    forall r: nat | lo <= r < hi ensures SelectedAt(e, role, reqs, rows, r) {
      if r < mid { assert SelectedAt(e, role, reqs, was, r); }
    }
  }

  /** A request with no keys selects nothing. */
  lemma EmptySelects(e: Engine, role: Role, reqs: seq<Request>, b: nat, r: nat)
    requires Fits(e, role, reqs) && Of(reqs, b, r) && r < |e.lens| && reqs[b].width == 0
    ensures Selected(e, role, reqs, RequestOf(reqs, r, |reqs|), r) == Fill(e.indexTopk)
  {
    OfUnique(reqs, b, RequestOf(reqs, r, |reqs|), r);
    assert Wanted(e, role, reqs, b, r) == [];
  }

  /** _low_ratio_index_topk_dense without the split: request by request, chunk by chunk. */
  method DenseSelect(e: Engine, role: Role, reqs: seq<Request>, budget: nat, publish: Option<seq<nat>>)
    returns (rows: seq<seq<int>>, masks: seq<seq<seq<bool>>>)
    requires Fits(e, role, reqs) && (publish.Some? ==> |publish.value| == |reqs|)
    ensures Selects(e, role, reqs, rows)
    ensures role.Source? ==> Publishes(e, reqs, publish, masks)
  {
    hide Fits, Sane, SelectedAt, MaskAt;
    FitsSane(e, role, reqs);
    var selected := new seq<int>[|e.lens|](i => []);
    masks := [];
    var b := 0;
    while b < |reqs|
      invariant b <= |reqs| && Starts(reqs, b) <= |e.lens|
      invariant RowsSelected(e, role, reqs, selected[..], 0, Starts(reqs, b))
      invariant role.Source? ==> |masks| == b && forall a: nat | a < b ::
                  TailMask(e, reqs, a, Pub(reqs, publish, a), masks[a])
    {
      StartsMono(reqs, b + 1, |reqs|);
      ghost var was := selected[..];
      if reqs[b].width == 0 || reqs[b].count == 0 {
        forall r | Starts(reqs, b) <= r < Starts(reqs, b + 1) { selected[r] := Fill(e.indexTopk); }
        forall r: nat | Starts(reqs, b) <= r < Starts(reqs, b + 1) ensures SelectedAt(e, role, reqs, selected[..], r) {
          EmptySelected(e, role, reqs, b, selected[..], r);
        }
        masks := masks + [[]];
      } else {
        var mask := DenseRequest(e, role, reqs, b, budget, Pub(reqs, publish, b), selected);
        masks := masks + [mask[..]];
      }
      SelectedGrows(e, role, reqs, was, selected[..], 0, Starts(reqs, b), Starts(reqs, b + 1));
      b := b + 1;
    }
    rows := selected[..];
  }

  lemma EmptySelected(e: Engine, role: Role, reqs: seq<Request>, b: nat, rows: seq<seq<int>>, r: nat)
    requires Fits(e, role, reqs) && Of(reqs, b, r) && r < |e.lens| == |rows| && reqs[b].width == 0
    requires rows[r] == Fill(e.indexTopk)
    ensures SelectedAt(e, role, reqs, rows, r)
  {
    EmptySelects(e, role, reqs, b, r);
  }

  /* --------------------------------------------------- a source layer and its consumers */

  /** The consumer layers that follow a source layer see the same keys, and the rows that were published. */
  ghost predicate Follows(reqs: seq<Request>, publish: Option<seq<nat>>, later: seq<Request>)
    requires publish.Some? ==> |publish.value| == |reqs|
  {
    |later| == |reqs| && forall b: nat | b < |reqs| :: later[b] == Request(reqs[b].width, Pub(reqs, publish, b))
  }

  /** The masks a source layer publishes fit the consumer layers that follow it, keyless and empty requests
      included. */
  lemma PublishedFit(e: Engine, reqs: seq<Request>, publish: Option<seq<nat>>, masks: seq<seq<seq<bool>>>,
          f: Engine, later: seq<Request>)
    requires Sane(e) && (publish.Some? ==> |publish.value| == |reqs|) && Publishes(e, reqs, publish, masks)
    requires Follows(reqs, publish, later) && Fits(f, Plain, later)
    ensures Fits(f, Consumer(masks), later)
  {
    hide Sane, Kept;
    forall b: nat | b < |later| && later[b].width > 0
      ensures |masks[b]| == later[b].count && forall i: nat | i < later[b].count :: |masks[b][i]| == later[b].width
    {
      assert TailMask(e, reqs, b, Pub(reqs, publish, b), masks[b]);
    }
  }

  /** And there they mask exactly the columns whose block the source row did not keep. */
  lemma ConsumerSeesKept(e: Engine, reqs: seq<Request>, publish: Option<seq<nat>>, masks: seq<seq<seq<bool>>>,
          later: seq<Request>, b: nat, r: nat, j: nat)
    requires Sane(e) && (publish.Some? ==> |publish.value| == |reqs|) && Publishes(e, reqs, publish, masks)
    requires Follows(reqs, publish, later) && Of(later, b, r) && j < reqs[b].width
    ensures
      var row := Starts(reqs, b + 1) - Pub(reqs, publish, b) + (r - Starts(later, b));
      && Starts(reqs, b) <= row < Starts(reqs, b + 1) && row < |e.lens|
      && (Masked(Consumer(masks), later, b, r, j) <==> !Kept(e, SourceScores(e, reqs[b].width, row), e.lens[row], j))
  {
    hide Sane, Kept;
    var pub := Pub(reqs, publish, b);
    assert later[b].count == pub && Starts(later, b + 1) == Starts(later, b) + pub;
    assert TailMask(e, reqs, b, pub, masks[b]);
    var i := r - Starts(later, b);
    assert MaskAt(e, reqs[b].width, Starts(reqs, b) + reqs[b].count - pub + i, masks[b][i]);
  }

  /** A source layer, split over the ranks, and a consumer layer after it. */
  method SourceThenConsumer(e: Engine, reqs: seq<Request>, publish: Option<seq<nat>>, f: Engine,
          later: seq<Request>, budget: nat, world: nat)
    returns (masks: seq<seq<seq<bool>>>, selected: seq<seq<int>>)
    requires Fits(e, Source, reqs) && world >= 1 && MaxWidth(reqs) > 0 && (publish.Some? ==> |publish.value| == |reqs|)
    requires Follows(reqs, publish, later) && Fits(f, Plain, later)
    ensures Publishes(e, reqs, publish, masks) && Fits(f, Consumer(masks), later)
    ensures Selects(f, Consumer(masks), later, selected)
  {
    hide Selects;
    FitsSane(e, Source, reqs);
    var rows;
    rows, masks := SplitSelect(e, Source, reqs, budget, world, publish);
    PublishedFit(e, reqs, publish, masks, f, later);
    hide Fits, Publishes;
    var none;
    selected, none := DenseSelect(f, Consumer(masks), later, budget, None);
  }
}
