# Proofs about the serving adapters

The adapters in this repository patch an LLM serving engine. Most of them are optimisations that claim
to give the engine's own result: a faster way to accept drafted tokens, a cached row store, an LM head
that computes only some tiles, a prefill whose residual is split by rows, a capped verify, a row-split
indexer, expert-parallel routing, column-split layers and a fast loader. This project models those
algorithms in Dafny and proves the claims, for every input, every run or every reachable state.

GPU kernels are functions and methods over exact reals, integers and sequences; engine callbacks are
abstract functions whose assumptions are written in the contracts; concurrent code is a step relation
with an adversarial scheduler. Random draws, clocks, the operating system's answers and rank-local
outcomes (exceptions, mismatches) are parameters, so a theorem holds for all of them.

| part | modules |
|---|---|
| shared | `Options`, `Seqs`, `IntMath`, `RealSums` |
| block verification of drafted tokens | `BlockVerify`, `OutputLaw`, `Losslessness`, `BlockLaws`, `OneDraft` |
| thread pool, row cache and readers of the row store | `Pool`, `PoolProof`, `PoolProgress`, `RowStore`, `RowShard`, `RowCache`, `RowCacheProof`, `RowLookup`, `RowRanks` |
| certified LM head | `CertHead`, `CertTables`, `CertBound`, `CertBuffers`, `CertStep` |
| prefill sequence parallelism and its collectives | `PrefillSp`, `PrefillSpProof`, `Lockstep`, `LockstepProof`, `LockstepGates` |
| verify cap | `VerifyCap`, `VerifyCapProof` |
| dense prefill indexer | `Indexer`, `IndexerSplit` |
| expert-parallel MoE | `EpRemap`, `EpForward` |
| column-split linear layers | `ColumnSplit`, `ColumnGather` |
| fast loader | `SlabLayout`, `SlabPlan`, `SliceRead`, `TensorSlice`, `ExpertSplit`, `Pacing` |

Main results, hardest first:

* **Losslessness** (`BlockVerifyLossless`, `CappedLossless`): drafting, joint acceptance, correction and
  continuation give every token sequence exactly its probability under the target, for every block
  length, vocabulary, prefix-dependent target and draft law and stopping rule, the confidence cut included.
* **Pool** (`PoolSafety`, `NoLostWakeup`, `RunEnds`, `CallerAlone`), **cache** (`CacheRefines`) and the two
  together (`LookupDelivers`): every interleaving of any number of jobs and lookups ends with the right row in
  every output slot, and the ranks' outputs add up to the table's rows (`LookupsAddUp`).
* **Collective lockstep** (`CollectiveLockstep`, `CompletesIff`): the ranks' collectives, verdicts and
  paths agree under every schedule and outcome, exactly when every call's gates agree or its verdict is off.
* **Certified argmax** (`TablesToArgmax`, `StepExact`), **sequence parallelism** (`SpForwardLayers`),
  **dead rows** (`LiveRowsUnchanged`, `CappedStepExact`), **indexer** (`SplitSelect`, `DenseSelect`),
  **routing** (`ForwardAll`), **columns** (`Gather`), **loading** (`LayoutPlan`, `SlicesAddUp`, `SliceElement`,
  `NarrowExact`) and **pacing** (`PacingHolds`).

Where the code does less than its comments promise, the model follows the code:

* `_moe8_forward` and `_make_attn_forward` take rank-local gates before any agreement, so "no rank enters a
  collective alone" holds if and only if, for every call, the gates agree or the size is already off
  (`CompletesIff`; `NoRankPasses` shows that otherwise no rank ever gets past that call).
* The `1e-30` clamps make the output law differ from the target when they bite (`ClampBites`).
  `BlockVerifyLossless` asks only that they change no weight and no threshold on prefixes that can occur. That
  is not necessary (`LoneTokenHides`): for blocks of one draft `OneDraftLaw` gives the law with the clamp left in, and
  `OneDraftExactIff` shows that it is the target's if and only if the correction gives each token back exactly
  what the clamp took from it.
* `row_store_range` does not look at an attached shard. For a table whose rows are pairwise distinct the store
  then stays correct if and only if the new range is empty or a beginning of the shard's (`SafeRangeIff`,
  `Store.Range`); `RangeAfterAttach` is a run that ends with row 0 served for row 1. The adapter itself sets
  the range before it attaches (adapter/engram_backend.py:152 and 159), so this order needs another caller of
  the C interface.
* `slab_layout` closes a full slab at its aligned fill, so "at most `slab` bytes" holds for every plan if and
  only if `slab` is a multiple of the alignment (`LimitIff`, with the plan `Tight` that overflows any other
  size). `slab_bytes` returns only such sizes (`SlabBytesWithin`).
* The remap kernel narrows ids to 32 bits before its test and the reference does not; they agree on an id if
  and only if it is not a foreign id whose low 32 bits name a local expert (`KernelExactIff`; `WideIdMisread` is such
  an id).

## Model

| member | source | states |
|---|---|---|
| `BlockVerify.BlockAcceptProbs` | adapter/block_verify.py:31-82 | In the quantities of the output law: the length is the last position whose draw is at most its acceptance probability, and the token wins the exponential race over the correction law |
| `BlockVerify.Weights` | adapter/block_verify.py:47-52 | The loop over `cur` gives the clamped running weights w_1..w_g, which saturate and are not a plain product |
| `BlockVerify.Thresholds` | adapter/block_verify.py:53-61 | The in-place fill gives S/(S + (1 - w)) inside the block and w at its end |
| `BlockVerify.AcceptedLength` | adapter/block_verify.py:64-68 | At the length the draw is at most the acceptance probability, at every later position it is above it, and unverified positions are never taken |
| `BlockVerify.Race` | adapter/block_verify.py:76-81 | The argmax of the normalised row over the exponentials wins the race of the correction law |
| `BlockVerify.RaceKeepsOrder` | adapter/block_verify.py:77-81 | Dividing by the clamped mass orders the race as the correction law does |
| `OutputLaw.TauLaw` | adapter/block_verify.py:64-68 | The total mass of the accept patterns whose last accept is t is a_t times the product of the later rejections |
| `OutputLaw.LastTrueIsAcceptedLength` | adapter/block_verify.py:67-68 | The length of a pattern in the law is the length the code takes |
| `OutputLaw.TauExpClosed` | adapter/block_verify.py:64-68 | Expectation over the length as a recursion from the front of the block |
| `Losslessness.TreeAgrees` | adapter/block_verify.py:40-61 | Weights, residuals and thresholds computed from a drafted block depend only on the prefix, and are those of the prefix tree |
| `Losslessness.CorrectionIsALaw` | adapter/block_verify.py:70-81 | The correction weights at any accepted length sum to one, including w = 1 with S = 0 |
| `Losslessness.BlockVerifyLossless` | adapter/block_verify.py:31-82 | For every target and draft kernel, block length and stopping rule, P(the stream starts with s) is the target's probability of s |
| `BlockLaws.SurvivalIdentity` | adapter/block_verify.py:45-68 | Given drafts X^i, the accepted length is at least i with probability exactly w_i |
| `BlockLaws.StopIdentity` | adapter/block_verify.py:69-81 | Given drafts X^i, the length is i and the correction y with probability max(w_i p(y) - q(y), 0) |
| `BlockLaws.MassBalance` | adapter/block_verify.py:45-81 | Corrected and accepted mass at y add up to w_i p(y), whether or not y could be drafted |
| `BlockLaws.ThresholdsAreProbabilities` | adapter/block_verify.py:53-66 | Every acceptance threshold lies in [0, 1] |
| `BlockLaws.LiveIsTruncation` | adapter/block_verify.py:41-68 | With live = L the acceptance probabilities and correction laws are those of the block rule on the first L drafts, and nothing behind them is accepted |
| `BlockLaws.NothingLive` | adapter/block_verify.py:41-78 | With live = 0 nothing is accepted and the correction law is the first target row |
| `BlockLaws.ClampBites` | adapter/block_verify.py:40 | A concrete pair of equal laws with a drafted probability under the clamp for which the output law is not the target |
| `BlockLaws.OneDraftIdle` | adapter/block_verify.py:40 | For blocks of one draft the clamps are idle whenever no drafted probability is positive and below them |
| `OneDraft.TakenIff` | adapter/block_verify.py:40-52 | The clamp takes acceptance mass from a token exactly where it changes its weight |
| `OneDraft.OneDraftLaw` | adapter/block_verify.py:31-82 | The exact output law of a block of one draft with the clamp left in: the target's plus the drift of its first token |
| `OneDraft.OneDraftExactIff` | adapter/block_verify.py:31-82 | That law is the target's if and only if each token gets back from the correction exactly what the clamp took |
| `OneDraft.BelowDraftShows` | adapter/block_verify.py:40 | A clamp that takes from a token with p <= q, while another token has p > q, always shows in the output |
| `OneDraft.LoneTokenHides` | adapter/block_verify.py:40 | A clamp that takes only from the one token with p > q never shows, so an idle clamp is not necessary |
| `PoolProof.NextKeeps` | adapter/row_store.cpp:188-258 | Every enabled step of the caller or a worker keeps the pool invariant |
| `PoolProof.RunKeeps` | adapter/row_store.cpp:188-258 | Every run keeps it, and each started job keeps its row count |
| `PoolProof.PoolSafety` | adapter/row_store.cpp:188-258 | When run() has returned, each index of the job was served exactly once; no thread is inside drain() for a returned job; no two serve one ticket |
| `PoolProgress.NoLostWakeup` | adapter/row_store.cpp:201-211 | While the caller sleeps its predicate is false and a worker inside the job can step; otherwise the caller can |
| `PoolProgress.RunEnds` | adapter/row_store.cpp:188-258 | A schedule that starts no job takes at most Measure(s) steps plus five per spurious wakeup |
| `PoolProgress.CallerAlone` | adapter/row_store.cpp:202-211 | With no worker inside the job the caller alone serves it and returns |
| `RowStore.OpenIsExtent` | adapter/row_store.cpp:427-475 | The open-time checks accept exactly the files that hold every weight and scale |
| `RowStore.CacheWithinBudget` | adapter/row_store.cpp:457-459 | Cache, keys and cursors fit the budget, and one more set would not |
| `RowStore.ReadFrom` | adapter/row_store.cpp:97-111 | A read returns exactly the bytes asked for, or aborts exactly when the page read fell short |
| `RowStore.PinScales` | adapter/row_store.cpp:344-380 | Whatever short reads happen, pinned scales are exactly the owned slice of the file, and pinning succeeds when no read inside the file returns nothing |
| `RowStore.ReadPaths` | adapter/row_store.cpp:139-145 | A weight read joined with a pinned scale is the table's row |
| `RowStore.Serve` | adapter/row_store.cpp:158-173 | Given rows as the cache delivers them, owned ids get their row, every byte for an unowned id is 0, out-of-range ids fail, and nothing outside [begin, end) is written |
| `RowShard.PackLayer` | scripts/pack_engram.py:51-97 | The packed file of a rank holds, after its header, exactly the rows the header names |
| `RowShard.BoundOrder` | scripts/pack_engram.py:51-97 | The ranks' bounds are the rounded-down shares, in order from 0 to the row count |
| `RowShard.ShardHoldsIff` | adapter/row_store.cpp:136-137 | A shard of [lo, hi) holds another range if and only if that is no longer and its rows equal the shard's one by one |
| `RowShard.SafeRangeIff` | adapter/row_store.cpp:531-538 | With pairwise distinct rows that is a condition on the ranges: empty, or a beginning of the shard's |
| `RowShard.Store.Range` | adapter/row_store.cpp:531-545 | Refusals leave the store as it was; otherwise it stays correct for a safe range, and with an attached shard and distinct rows only then |
| `RowShard.RangeAfterAttach` | adapter/row_store.cpp:531-545 | A concrete run: after an attach for [0, 1) the range [1, 2) is accepted and row 0 is served for row 1 |
| `RowShard.Store.AttachPacked` | adapter/row_store.cpp:505-529 | A shard is attached exactly when header and size match this store; the store stays correct if the shard holds the rows its header names, and whenever nothing is attached |
| `RowCache.SlotsAreDistinct` | adapter/row_store.cpp:123-126 | Distinct (set, way) pairs are distinct slots in bounds |
| `RowCacheProof.Exclusive` | adapter/row_store.cpp:119-122 | Two threads holding the lock of one stripe are one thread |
| `RowCacheProof.NextKeeps` | adapter/row_store.cpp:118-156 | Every byte-level step of any thread keeps the cache invariant |
| `RowCacheProof.CacheRefines` | adapter/row_store.cpp:118-156 | Under every interleaving, duplicate misses and shared stripes included, a finished lookup returned the table's 264 bytes and every key is an owned id in its own set |
| `RowLookup.RunTies` | adapter/row_store.cpp:224-236 | Over every schedule of the pool, an index that was served has its fetched row, or zeros, in its output slot |
| `RowLookup.LookupDelivers` | adapter/row_store.cpp:477-487 | Once run() has returned for a job, every output slot holds the table's row of its id, or 264 zero bytes if unowned, whatever the pool's and the cache's schedules were |
| `RowRanks.RanksAddUp` | adapter/row_store.cpp:158-173 | Each row has one owner: what the ranks give for an id adds up to the table's row, byte by byte |
| `RowRanks.ServeAll` | adapter/row_store.cpp:158-173 | Every rank serves the same ids from its own range; the added outputs are the table's rows, or some id is outside the table |
| `RowRanks.LookupsAddUp` | adapter/row_store.cpp:477-487 | The same for whole lookups, over every schedule of every rank's pool and cache |
| `CertHead.ArgmaxUnique` | adapter/cert_head.py:276-282 | The first index of a maximum is unique, ties and NaN included |
| `CertHead.ArgmaxIsLargest` | adapter/cert_head.py:276-282 | No logit is a larger real, infinite or NaN where the chosen one is not, and none before it equals it |
| `CertHead.NeededIff` | adapter/cert_head.py:263-273 | With no bad row exactly the tiles are computed that hold a stop id or a token whose upper bound is below no token's lower bound |
| `CertHead.CertifiedArgmax` | adapter/cert_head.py:263-282 | With every non-stop logit between its bounds, the argmax over all ranks' tile-masked rows is the stock argmax with the same value, for every row, superset of stop slots and subset masked afterwards |
| `CertHead.FullIsStock` | adapter/cert_head.py:263-274 | In full mode every logit is computed |
| `CertBound.CauchySchwarz` | adapter/cert_head.py:197-224 | The dot product of a group is at most the product of its norms |
| `CertBound.ScreenError` | adapter/cert_head.py:197-224 | Exact and dequantised row products differ by at most the sum over groups of R_g times the input norm |
| `CertBound.AccumulationGap` | adapter/cert_head.py:234-254 | With both accumulation errors within e, stock and screen differ by at most that sum plus 2e |
| `CertBound.TokenCertified` | adapter/cert_head.py:234-254 | For every monotone rounding the rounded logit lies between lo and hi, non-finite rows included |
| `CertBound.BoundsTight` | adapter/cert_head.py:247-250 | Finite bounds are no wider than the error terms, 2^-17 of them and 2^-22 of the value |
| `CertBuffers.ArmedIff` | adapter/cert_head.py:664-688 | A step is armed exactly when only the greedy token is taken, nothing but min_new_tokens edits its rows, and the stop ids it may mask fit the slots; then the slots are those ids |
| `CertBuffers.ArmedEdits` | adapter/cert_head.py:664-688 | In an armed step the penalizers set some of the request's own stop ids to -inf, the same for every row, and do nothing else |
| `CertBuffers.Buffers.SetStop` | adapter/cert_head.py:691-700 | The slots hold the tuple and -1 behind it, whether or not they are rewritten |
| `CertBuffers.Buffers.RunNonCompact` | adapter/cert_head.py:728-737 | Whatever earlier steps left, the flag says whether this batch is armed, and while a penalizer is required the slots hold every stop id of every request |
| `CertBuffers.Buffers.RunCompactOrIdle` | adapter/cert_head.py:739-745 | Compact and idle forwards compute full logits |
| `CertTables.BuildTables` | adapter/cert_head.py:197-224 | The row-chunk loop leaves, for every group and row, an entry at least the norm it stands for, none for a row whose copy the cast changes, and otherwise none only where the norm overflows |
| `CertTables.ColumnBounds` | adapter/cert_head.py:207-217 | A token with finite entries meets the hypothesis of the error bound |
| `CertStep.TablesCertify` | adapter/cert_head.py:197-254 | Bounds from sound tables certify every token of a shard |
| `CertStep.InputNorms` | adapter/cert_head.py:240-242 | The computed group and row norms of an input are at least the norms they stand for |
| `CertStep.AccumulationBound` | adapter/cert_head.py:247 | An accumulation within c N_v times the input's norm is within c times the table's row norm and the computed input norm |
| `CertStep.BuiltCertifies` | adapter/cert_head.py:197-260 | The entries the build loop leaves certify every token of a shard, in every step whose accumulations are as accurate as assumed |
| `CertStep.StepExact` | adapter/cert_head.py:664-737 | For every batch, whatever its processors, bias, masks and penalizers do to a row, the step hands on what it would hand on from the stock logits |
| `CertStep.TablesToArgmax` | adapter/cert_head.py:197-282 | From weights to tokens, over all ranks: with tables as built and accumulations within c N_v times the input's norm, every step hands on what it would from the stock logits |
| `PrefillSp.EligibleSplits` | adapter/prefill_sp.py:380-389 | An eligible chunk splits into equal shards |
| `PrefillSp.GatherSharded` | adapter/prefill_sp.py:404-409 | Gathering the shards gives back the rows |
| `PrefillSp.ReduceRowsIsSlice` | adapter/prefill_sp.py:412-420 | Each rank's reduced rows are its slice of the all-reduce, in exact mode for any reduction |
| `PrefillSp.ReduceOutIsAllReduce` | adapter/prefill_sp.py:423-430 | Reduce-scatter then all-gather is the all-reduce |
| `PrefillSp.StockAttnRow` | adapter/prefill_sp.py:1294-1341 | A row of the stock attention is the all-reduce of the partials of ranks 0 .. W - 1 on the whole chunk, added to the residual row |
| `PrefillSp.StockMoeRow` | adapter/prefill_sp.py:1347-1393 | The same for the MoE |
| `PrefillSp.StockEngramRow` | adapter/prefill_sp.py:662-683 | A row of the stock lookup layer is gated by its own product of the reduced lookup |
| `PrefillSpProof.SpAttnRefines` | adapter/prefill_sp.py:1294-1341 | Attention on gathered rows with reduced outputs keeps the shards of the stock residual |
| `PrefillSpProof.SpMoeRefines` | adapter/prefill_sp.py:1347-1393 | The same for the MoE |
| `PrefillSpProof.SpEngramRefines` | adapter/prefill_sp.py:662-683 | The lookup, reduced or shared, keeps the shards of the stock residual |
| `PrefillSpProof.TailRealRowsRefine` | adapter/prefill_sp.py:433-451 | Either plan for the tail rows gives exactly those rows of the whole residual |
| `PrefillSpProof.SpStep` | adapter/prefill_sp.py:709-781 | One iteration: tail switch, capture and layer are the stock ones |
| `PrefillSpProof.SpForwardLayers` | adapter/prefill_sp.py:688-793 | The whole loop, through the tail switch, returns the unsharded forward's rows and captured hidden states, and the KV write before the tail sees every row |
| `PrefillSpProof.RotationAgrees` | adapter/prefill_sp.py:412-420 | Under an associative, commutative addition the sum from any starting rank is the same |
| `PrefillSpProof.RingAgrees` | adapter/prefill_sp.py:412-420 | So a ring reduce-scatter meets the assumption of the refinement |
| `LockstepProof.MeetLands` | adapter/prefill_sp.py:1119-1267 | After each collective a rank stands where the decisions, with no protocol, say it should |
| `LockstepProof.CollectiveLockstep` | adapter/prefill_sp.py:1119-1267 | Under every schedule, run of calls and assignment of rank-local outcomes, the ranks' tables, collectives and paths agree and are the decided ones |
| `LockstepProof.NeverStuck` | adapter/prefill_sp.py:1119-1267 | In every reachable state all calls are made or some step is enabled |
| `LockstepProof.RunsEnd` | adapter/prefill_sp.py:1119-1267 | No run is longer than the work at its start |
| `LockstepGates.VerdictsStand` | adapter/prefill_sp.py:1258-1260 | An agreed verdict is never changed by a later call |
| `LockstepGates.OnIsEarned` | adapter/prefill_sp.py:1174-1267 | A size is on only if one earlier chunk of it passed routing, bytes and output on every rank; the padded router is used only where the shard router differed somewhere |
| `LockstepGates.PutOffIsUndecided` | adapter/prefill_sp.py:1220-1229 | A first chunk leaves its size open exactly when its gate was shut or a tiny block put the verdict off |
| `LockstepGates.InputOnIsEarned` | adapter/prefill_sp.py:855-880 | The quantised attention input of a size is on only if one earlier chunk had the stock bytes, scales and product on every rank |
| `LockstepGates.WkvOnIsEarned` | adapter/prefill_sp.py:636-649 | A shard product is on only if one earlier chunk of that table and size equalled the full product on every rank |
| `LockstepGates.CheckReturnsStock` | adapter/prefill_sp.py:1246-1267 | Whatever path a check chunk returns by, each rank gets the stock result |
| `LockstepGates.NoRankPasses` | adapter/prefill_sp.py:1119-1135 | From the first call whose gates differ with an open verdict, no run takes any rank past it |
| `LockstepGates.CompletesIff` | adapter/prefill_sp.py:1119-1267 | Some schedule makes every call if and only if each call's gates agree or its verdict is off |
| `LockstepGates.LoneGateStalls` | adapter/prefill_sp.py:1124-1135 | A concrete group: one MoE call, two ranks, one open gate, and no run finishes |
| `VerifyCap.Cap.SetLiveFromConfidence` | adapter/verify_cap.py:64-80 | The step's requests get one plus their own cut, the others keep theirs, and every anchor stays live |
| `VerifyCap.ShareLive` | adapter/verify_cap.py:82-97 | Every rank ends with rank 0's lengths for the step's requests and its own for the rest |
| `VerifyCap.Cap.SrcRows` | adapter/verify_cap.py:100-115 | Cached or not, the source rows are those of the live lengths of this forward |
| `VerifyCap.RemapKernel` | adapter/verify_cap.py:123-136 | The in-place column loop equals the gather by source rows |
| `VerifyCap.Cap.RemapDeadRows` | adapter/verify_cap.py:141-154 | Both branches return the gather of the routing by source rows |
| `VerifyCap.AnchorStays` | adapter/verify_cap.py:108-110 | An anchor is its own source, so the in-place order cannot matter |
| `VerifyCapProof.CutIsStoppingRule` | adapter/verify_cap.py:64-79 | The vectorised cut is the first position where a rule that sees only earlier drafts stops |
| `VerifyCapProof.CutOnList` | adapter/verify_cap.py:36-39 | Past the minimum, a draft is verified exactly when the survival of every draft up to it reaches its entry of the configured list, whose last entry goes on |
| `VerifyCapProof.FixedIsStoppingRule` | adapter/verify_cap.py:12-14 | A fixed cut stops after its k drafts |
| `VerifyCapProof.CappedLossless` | adapter/verify_cap.py:15-19 | Under any policy the verified count is the stopping rule's, and the output law is the target's |
| `VerifyCapProof.LiveRowsUnchanged` | adapter/verify_cap.py:6-11 | For any causal attention, row-local MoE and number of layers, every row before its request's live length is what it is without the cap |
| `VerifyCapProof.NoExtraExperts` | adapter/verify_cap.py:8-9 | The experts a capped layer reads are exactly those that the rows before their request's live length read without the cap |
| `VerifyCapProof.DeadRowsUndecided` | adapter/block_verify.py:41-66 | Acceptance probabilities and correction laws do not depend on what the dead rows hold |
| `VerifyCapProof.CappedStepExact` | adapter/verify_cap.py:6-11 | The capped forward's block has the acceptance probabilities and correction laws of the unrerouted forward's |
| `Indexer.BlockScoreIs` | adapter/spark_prefill_dense.py:22-25 | A block scores the largest of its columns, and the block of the row's last key is infinite |
| `Indexer.KeptIff` | adapter/spark_prefill_dense.py:22-27 | A column is kept exactly when its block is among the best and holds the last key or a score above -inf |
| `Indexer.CandidateMask` | adapter/spark_prefill_dense.py:29-33 | The scattered mask keeps exactly the columns whose block is among the ids |
| `Indexer.MaskFromIds` | adapter/spark_prefill_dense.py:22-33 | The mask rebuilt from a row's block ids is the mask of the full block selection |
| `IndexerSplit.PartitionExact` | adapter/spark_prefill_dense.py:15-20 | Every row is owned by exactly one rank |
| `IndexerSplit.MaskedPrefix` | adapter/indexer_chunked_v3.py:72-87 | Within its length a masked row is the wanted one, whatever the scorer left past it |
| `IndexerSplit.SelectedIs` | adapter/indexer_chunked_v3.py:72-93 | A row alone: a consumer ranks the columns its mask keeps and masks once more, any other role ranks its scores |
| `IndexerSplit.MaskChunk` | adapter/indexer_chunked_v3.py:72-87 | After the request loop every row of the chunk is masked as its own request asks, with its block ids packed |
| `IndexerSplit.SelectChunk` | adapter/indexer_chunked_v3.py:65-93 | A chunk's packed rows are final and no other row is touched |
| `IndexerSplit.RowsPerChunk` | adapter/indexer_chunked_v3.py:57 | At least one row, and within the byte budget if more |
| `IndexerSplit.SplitLocal` | adapter/indexer_chunked_v3.py:38-95 | Each of the rank's rows holds the selection and block ids it has alone |
| `IndexerSplit.SplitSelect` | adapter/indexer_chunked_v3.py:98-132 | For every row count, world, request layout and budget the gathered selection of each row is its own, and the masks are the tail rows of the full masks |
| `IndexerSplit.DenseSelect` | adapter/indexer_chunked_v3.py:265-328 | The unsplit chunked loop gives the same selections and masks |
| `IndexerSplit.PublishedFit` | adapter/indexer_chunked_v3.py:110-124 | The masks a source layer publishes, tail-only or whole, fit the consumer layers after it, keyless and empty requests included |
| `IndexerSplit.ConsumerSeesKept` | adapter/indexer_chunked_v3.py:86-87 | There they mask exactly the columns whose block the source row did not keep |
| `IndexerSplit.SourceThenConsumer` | adapter/indexer_chunked_v3.py:98-132 | A split source layer followed by a consumer layer: published masks and selections as above |
| `EpRemap.WrapIsExact` | adapter/moe_b12x_next.py:314-315 | The kernel's 32-bit test of a local id is exact for every int32 id |
| `EpRemap.KernelExactIff` | adapter/moe_b12x_next.py:314-315 | For any integer id the test is exact if and only if the id is not a foreign one whose low 32 bits name a local expert |
| `EpRemap.WideIdMisread` | adapter/moe_b12x_next.py:314-315 | A concrete foreign id that the kernel takes for local expert 3 |
| `EpRemap.NarrowSame` | adapter/moe_b12x_next.py:314-315 | Narrowing to 32 bits changes nothing exactly when every id is an int32 |
| `EpRemap.BestLocal` | adapter/moe_b12x_next.py:310-317 | The blocked first pass finds the smallest local id of the batch |
| `EpRemap.RemapKernel` | adapter/moe_b12x_next.py:306-328 | For all ids the two blocked passes write what the reference computes on the ids narrowed to 32 bits |
| `EpRemap.FillerIs` | adapter/moe_b12x_next.py:306-328 | A foreign slot takes the smallest local expert of its row, or else of the batch, or else 0 |
| `EpRemap.FillersAreRead` | adapter/moe_b12x_next.py:351-362 | The remapped batch reads exactly the local experts it was routed to, or expert 0 if none |
| `EpForward.RemapKeepsShare` | adapter/moe_b12x_next.py:351-362 | A row's weighted expert sum is unchanged by the remap, whatever batch gave the fillers |
| `EpForward.SelectChunk` | adapter/moe_b12x_next.py:703-713 | Exactly the capacities that run in one launch are kept, in order, the others dropped, and the chunk is the largest kept; it fails exactly when none is |
| `EpForward.Lookup` | adapter/moe_b12x_next.py:545-547 | The smallest capacity that holds the rows |
| `EpForward.Geometry.CapFor` | adapter/moe_b12x_next.py:549-550 | Table and search agree on a prepared capacity that holds any chunk |
| `EpForward.Geometry.Forward` | adapter/moe_b12x_next.py:681-700 | The launches cover each row once, whole chunks but for the last, each on the smallest prepared capacity that holds its rows, and a row's output is its share of the routing as the kernel reads it, for int32 ids the original one, however the batch is cut |
| `EpForward.RoutingConserved` | adapter/moe_b12x_next.py:305-362 | Summed over the expert-parallel ranks a row's shares are the weighted sum with out-of-range ids dropped |
| `EpForward.ForwardAll` | adapter/moe_b12x_next.py:681-700 | Every rank runs its own forward and the outputs are added: each row gets the original weighted sum with out-of-range ids dropped, whatever capacities, chunks and launches the ranks used |
| `ColumnSplit.RangesPartition` | adapter/replicated_split.py:68-73 | The ranges run from 0 to n without gap or overlap; none is empty or wider than the gather |
| `ColumnSplit.OwnerOf` | adapter/replicated_split.py:68-73 | Each column belongs to exactly one rank |
| `ColumnSplit.WindowHolds` | adapter/replicated_split.py:76-79 | A window lies inside the weight, on a tile, and contains its range |
| `ColumnSplit.LocalHolds` | adapter/replicated_split.py:258-285 | Slice or window, a rank's part holds its own columns at its offset |
| `ColumnSplit.AssembleIsFull` | adapter/replicated_split.py:100-112 | Padded gather and reorder give back the stock row for both forms, the equal-width shortcut included |
| `ColumnSplit.StackedIsFull` | adapter/replicated_split.py:130-132 | So does one cat of the stacked parts |
| `ColumnSplit.WholePacks` | adapter/replicated_split.py:120-127 | Every width and destination of a split layer is whole 16-byte packs |
| `ColumnGather.ScatterColumns` | adapter/replicated_split.py:161-171 | Own columns written at their destinations in any order of arrival give the stock row |
| `ColumnGather.RunCompact` | adapter/replicated_split.py:161-174 | Both compact variants return the stock output |
| `ColumnGather.Layer.Gather` | adapter/replicated_split.py:221-237 | Whatever has been checked, the output is the stock one; a variant is decided once per row count for all ranks, and only a rank without the kernel turns it off |
| `SlabLayout.Layout` | adapter/fast_load.py:356-380 | The slabs place exactly the non-empty tensors, each in an aligned region inside its slab and apart from the others |
| `SlabLayout.LayoutInOrder` | adapter/fast_load.py:367-380 | The shared slabs hold their tensors, slab after slab, in the order they were given |
| `SlabLayout.ClosedWhenFull` | adapter/fast_load.py:373-377 | A shared slab is closed only when the next tensor that could share it does not fit behind it |
| `SlabPlan.SortedInOrder` | adapter/fast_load.py:366 | The sorted plan is in strict name order |
| `SlabPlan.LayoutPlan` | adapter/fast_load.py:356-380 | Whatever order the plan has, each non-empty tensor is placed, and the shared slabs hold exactly the tensors that fit, slab after slab in name order |
| `SlabLayout.OneRegionEach` | adapter/fast_load.py:356-380 | So each non-empty planned tensor has exactly one region |
| `SlabLayout.SlabBytes` | adapter/fast_load.py:339-349 | Zero exactly for a size of 0 or less; else a power of two, 1 MiB for anything under a MiB, and otherwise more than half of what was asked and not above it; a size that is no number counts as 256 MiB |
| `SlabLayout.LimitIff` | adapter/fast_load.py:356-380 | Every slab of every plan is within the limit or holds one bigger tensor, if and only if the limit is a multiple of the alignment |
| `SlabLayout.TightOverflows` | adapter/fast_load.py:373-375 | For any other limit, a plan whose first slab is closed above it |
| `SlabLayout.SlabBytesWithin` | adapter/fast_load.py:339-380 | With the sizes slab_bytes gives, the limit holds for every plan |
| `SliceRead.KeptTwice` | adapter/fast_load.py:432-434 | A slice of a slice is one slice |
| `SliceRead.ReadInto` | adapter/fast_load.py:473-480 | Whatever short reads come, success means exactly the file's bytes and nothing else written |
| `SliceRead.ReadRun` | adapter/fast_load.py:597-602 | The chunked read of a leading-dimension slice is that run of the file |
| `SliceRead.Reader.ReadRows` | adapter/fast_load.py:603-617 | Rows through the reused bounce buffer leave exactly the kept columns of every row |
| `TensorSlice.SliceSpec` | adapter/fast_load.py:262-273 | Only weights and scales of w1, w2, w3 of routed experts are sliced, along a dimension that divides, to the rank's equal share; everything else is read whole |
| `ExpertSplit.RowsPart` | adapter/fast_load.py:81 | A rank's w1 or w3, weights and scales cut by name, is its rows of the projection |
| `ExpertSplit.ColumnsPart` | adapter/fast_load.py:81 | A rank's w2 is its columns, each with its own scale |
| `ExpertSplit.SlicesAddUp` | adapter/fast_load.py:262-273 | For any gated expert, the ranks' outputs from their slices add up to the expert's output |
| `TensorSlice.SlicesTile` | adapter/fast_load.py:262-273 | Each index of the dimension is in exactly one rank's slice |
| `TensorSlice.GeometryCovers` | adapter/fast_load.py:293-303 | Outer rows of row bytes are the whole tensor, for any rank |
| `TensorSlice.ReadSlice` | adapter/fast_load.py:573-618 | The destination holds exactly the rank's slice, by either path |
| `TensorSlice.SliceElement` | adapter/fast_load.py:573-618 | Each byte of each element of the slice is the full tensor's at the shifted multi-index, for any rank-n shape |
| `TensorSlice.NarrowExact` | adapter/fast_load.py:419-434 | The stand-in accepts exactly the narrows inside its slice, and each equals the same narrow of the full tensor |
| `Pacing.SubmitKeeps` | adapter/fast_load.py:1193-1203 | An admitted submit keeps the accounting and the bound |
| `Pacing.ReleaseKeeps` | adapter/fast_load.py:1206-1216 | So does the end of any copy |
| `Pacing.PacingHolds` | adapter/fast_load.py:1189-1227 | Over every interleaving: in flight is the unkeyed charges plus one charge per held slab, within budget unless one charge is alone, zero exactly when nothing runs, and nothing is blocked at zero |
| `Pacing.SlabsChargedOnce` | adapter/fast_load.py:1151-1216 | With every copy given its slab's size, what is in flight is the unkeyed bytes plus the size of each slab a running copy reads, once |
| `Pacing.Pacer.Admit` | adapter/fast_load.py:1193-1203 | The woken submit charges or goes back to waiting exactly as the loop condition says |
| `Pacing.Pacer.Done` | adapter/fast_load.py:1206-1216 | The callback drops the slab's charge with its last copy |

## Left out

- BlockVerifyLossless: for blocks of more than one draft, that the clamps change no weight and no threshold is proved sufficient only; the exact condition is proved for one draft (`OneDraftExactIff`), where it is weaker. The same assumption stands in SurvivalIdentity, StopIdentity, MassBalance and CappedLossless.
- BlockAcceptProbs: the winner of the exponential race is proved, the textbook fact that such a race samples in proportion to its weights is taken as the meaning of the draw.
- Floating-point rounding, tensor-core accumulation and bit patterns: arithmetic is over exact reals, a monotone rounding, a rounding up, or a stated accumulation error; a filler of weight zero contributes exactly zero.
- Pool shutdown (`stop_`, the destructor), the keepalive thread, DRM buffers and O_DIRECT alignment of the row store; memory is sequentially consistent.
- `fail()` in the row store, failed allocations and uncaught exceptions in the adapters: they end the process or the fast path, and nothing is said about what follows.
- Serve: takes rows as delivered; that the cache delivers them under every schedule, and that the pool's threads then fill every slot, is `LookupDelivers`.
- ServeAll: adds the ranks' bytes; the engine adds the dequantised rows, of which all but the owner's are zero. The same holds for LookupsAddUp.
- TablesToArgmax: takes the accumulation error that `c_acc` assumes of the hardware; the quantisation that makes the copy (`make_mxint8`) may be any. TablesCertify is its step for evidence of any origin.
- SpEngramRefines: a good verdict on the shard product is earned on one chunk (`WkvOnIsEarned`) and used on later ones; this lemma, SpStep and SpForwardLayers assume that it is right about the chunk at hand. `WkvExactIff` checks that the assumption says no more than that.
- SpForwardLayers: the image-token mask is part of the abstract row-local gate, which sees each row's token id; debug comparisons and the MXFP8 inputs inside the loop are not part of the refinement; the MXFP8 paths appear in `Lockstep` by their control flow.
- CollectiveLockstep: the contents of gathered tensors are outcomes, not values; call order is the same on every rank because the engine schedules it.
- SplitSelect: scorer, top-k, score masking and block ranking are engine kernels, assumed row-local and blind past a row's length.
- Gather: that a slice or window product equals the same columns of the full product is the layer's own check at run time and is assumed here.
- SlabBytes: an infinite or NaN size, on which the source raises, is not modelled.
- SlicesAddUp: a weight is one real per element; that the checkpoint packs two 4-bit weights into a byte is not modelled.
- ReadSlice: `plan_ranges`, pinned allocation and release of host memory are not modelled.
- `b12x` plan selection, arena carving, warm-up and tuning of the MoE; `install*` hooks, logging and statistics everywhere.
- `hc_fused.py`, `spec_sync_free.py`, `eager_glue.py`, `prefill_bypass.py`: fused engine kernels and scheduler glue whose claims are about engine code that is not in this repository; nothing proved here calls them.
- `l2_prefetch.py` issues cache hints; `adaptive_chunk.py` picks the size of a prefill chunk, `loop_abort.py` ends a repeating generation, `replay_guard.py` refuses requests the engine cannot serve, `encoding_compat.py` maps prompt options and caps tokens, and `tp3_pad.py` pads weights for three ranks: each works before or after the algorithms above, which are proved for every chunk size, request and shape.
- `boot.py` and the benchmarks start and measure processes.
