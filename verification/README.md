# Verified models of the inference engine and its benches

Dafny models of the algorithms that this repository's claims rest on, each with proofs over every
input, run or reachable state. `dafny verify dfyconfig.toml` checks all of them.

The target model is any function from a prefix to its most likely next token (or, in `Sampling`, to a
distribution); drafters, digests, clocks and `exp` are parameters, so nothing depends on particular
weights. Arithmetic is exact: reals stand for floats.

| file | what it models |
|---|---|
| `PagedCache.dfy`, `BlockStore.dfy` | paged key/value cache with prefix sharing: block pool, reference-counted prefix cache with eviction, block tables, publishing, roll-back after running out of blocks |
| `GreedyTrajectory.dfy`, `Speculative.dfy` | draft/verify speculative decoding, in the parity check and in the runner, against one-token-at-a-time decoding; index bookkeeping of both caches |
| `Sampling.dfy` | rejection sampling: when a position, and then a whole run, emits the target's own distribution |
| `Attention.dfy`, `PagedAttention.dfy` | decode, prefill and mixed attention through block tables against dense attention; the page makers |
| `Sinkhorn.dfy`, `SinkhornBounds.dfy`, `SinkhornConvergence.dfy` | matrix and scale-vector Sinkhorn, their equality, bounds on one iteration, geometric convergence with the guard eps |
| `Staging.dfy`, `ShardIndex.dfy`, `Fp8Quant.dfy` | resumable checkpoint staging with crashes, the shard and index rewrite, block-FP8 quantisation and its bf16 round trip |
| `RankCollect.dfy` | collecting one result per rank from a queue while workers report, fail or die, under a deadline |
| `TraceSweep.dfy`, `TraceNesting.dfy` | the profiler's stack sweep against the quadratic definition of enclosing intervals, and what its counts mean on the unsorted trace |
| `Auroc.dfy`, `Calibration.dfy` | tie-corrected AUROC and binned calibration error |
| `GreedyDecode.dfy`, `GroupEnds.dfy`, `OpenLoop.dfy` | chunked prefill with cached decode; expert segment ends; open-loop request cadence |
| `Prelude.dfy`, `Reals.dfy`, `Vectors.dfy`, `Blocks.dfy` | optional values and sorting, scalars, vector sums, block index arithmetic |

Where the source updates state step by step, the model does: caches, the pool and the memo are classes,
the references fill arrays, and loops are loops. Each such method is proved against a function whose
meaning is then proved in lemmas. Protocols with concurrency or crashes (`RankCollect`, `Staging`) are
step relations with an invariant over all histories.

What callers owe is stated as preconditions: the paged cache is fed a request's prompt at the prompt's
own positions, and a step that ran out of blocks is rolled back before the next one; digests have 16
bytes, tokens of submitted prompts fit in four, and no two byte strings that are hashed for submitted
prompts collide; the sweep divides by at least one step; attention shapes agree; staged weights are
bf16.

## Where code and documentation disagree

The models follow the code.

- `src/mini_infer/engine/dspark/speculative.py:59-62` says that above temperature 0 the emitted tokens are
  a draw from the target's distribution. The first token is the argmax at every temperature (line 134), so
  this holds if and only if the target was certain of it and the loop goes on from there with the target's
  law (`Sampling.RunIsLosslessExactly`). For the latter it is enough that every position that the run may
  verify is lossless (`Sampling.RunIsLossless`). Where some are not, `Sampling.RunIsClose` bounds how far
  off the run is.
- `src/mini_infer/engine/dspark/sampling.py:16-27` calls the emitted distribution exactly the target's and
  both guards harmless. Each guard changes it on some inputs; `Sampling.LosslessTest`,
  `Sampling.LosslessOnRealExcess` and `Sampling.LosslessAboveFloor` say on which,
  `Sampling.EmittedIsClose` by how much.
- `scripts/minimax_m3/modal_m3_stage_weights.py:16-18` says that a preemption costs only the shard in
  flight. Commits come every fourth shard, so it can cost up to four finished ones
  (`Staging.FourShardsLost`); it costs none if and only if no shard was renamed since the last commit
  (`Staging.LossInEveryHistory`, `Staging.LossExactly`). Line 197 bounds scratch to one shard; an
  exception between rename and removal strands a download that a rerun in the same container never removes
  (`Staging.StrandedDownload`), and the bound holds if and only if no run works on a shard while one is
  stranded (`Staging.ScratchWithinOneExactly`).
- `scripts/deepseek_v4/modal_v4_projection_dtype_probe.py:323-325` terminates on a worker that exited
  without reporting. The test is a nonzero exit code, and on that it is exact
  (`RankCollect.LookGivesUpExactly`): a worker that reported and then ended badly is named too
  (`RankCollect.DeadWorkerHadReported`; `RankCollect.DeadHaveNoResult` says exactly when), and one that
  exits with code 0 is waited for until the deadline (`RankCollect.SilentExitTimesOut`,
  `RankCollect.SilentExitIsWaitedFor`).
- `scripts/dspark/modal_dspark_parity.py:419` says that the target cache keeps the bonus token. The crop
  keeps the tokens before it; the bonus is fed in the next round.
- A paged sequence of length 0 is not attention over nothing: every row of its padding pages weighs the
  same (`PagedAttention.EmptySequenceReadsPages`). From length 1 on, padding has no influence.
- The position table of the parity check covers every drafter exactly while rounds * (block_size + 1) <=
  65 (`Speculative.TableCoversExactly`).

## Model

| member | source | states |
|---|---|---|
| GreedyTrajectory.GreedyIsTheTrajectory | scripts/dspark/modal_dspark_bench.py:261-271 | a sequence is the argmax of what precedes it at every position if and only if it is the recursively defined greedy trajectory |
| GreedyTrajectory.ExtendPrefix | scripts/dspark/modal_dspark_bench.py:261-271 | a shorter greedy run is a prefix of every longer one |
| GreedyTrajectory.GreedyTokensCharacterised | scripts/dspark/modal_dspark_bench.py:265-272 | the kept tokens are the one and only sequence that follows the trajectory and stops the first time it meets EOS or the length limit |
| GreedyTrajectory.HiddenRowsAppend | scripts/dspark/modal_dspark_parity.py:416-417 | rows tapped in two forwards are the rows tapped in one |
| GreedyTrajectory.TargetCache.Forward | scripts/dspark/modal_dspark_parity.py:375-383 | a forward appends what it is fed and gives, per fed token, the argmax after everything up to it |
| GreedyTrajectory.TargetCache.Crop | scripts/dspark/modal_dspark_parity.py:418-420 | cropping keeps a prefix; a longer length changes nothing |
| Speculative.CountAccepted | scripts/dspark/modal_dspark_parity.py:384-390 | the scan stops at the first draft token that is not the target argmax |
| Speculative.ScanFindsAgreement | scripts/dspark/modal_dspark_parity.py:384-390 | against the verify rows, the scanned count is the drafts' agreement with the trajectory, and accepted drafts plus bonus are the committed tokens |
| Speculative.AgreementIs | scripts/dspark/modal_dspark_parity.py:384-390 | that agreement is the longest: the drafts in it are the next trajectory steps and the draft behind it is not |
| Speculative.RoundIsLossless | scripts/dspark/modal_dspark_parity.py:375-413 | whatever was drafted, a round commits exactly the next steps of the greedy trajectory |
| Speculative.RoundsAreLossless | scripts/dspark/modal_dspark_parity.py:344-420 | over any number of rounds and any drafts the output stays on the greedy trajectory |
| Speculative.ParityAgreesWithBaseline | scripts/dspark/modal_dspark_parity.py:332-420 | committed output and one-token-at-a-time decoding agree at every position both reach, whatever was drafted and wherever the latter stopped |
| Speculative.RoundsAdvance | scripts/dspark/modal_dspark_parity.py:410-418 | each round advances by 1 to block_size + 1 |
| Speculative.PerfectDraftsAdvance | scripts/dspark/modal_dspark_parity.py:410-418 | a drafter that always guesses right advances by block_size + 1 every round, so the upper bound is met |
| Speculative.TableCoversExactly | scripts/dspark/modal_dspark_parity.py:258-258 | the n_prompt + 64 position table is long enough for every drafter if and only if rounds * (block_size + 1) <= 65 |
| Speculative.CachesFollowCommit | scripts/dspark/modal_dspark_parity.py:410-420 | after a round the cropped target cache holds the committed tokens before the new anchor, and drafter cache plus new context are the tapped rows of exactly those |
| Speculative.DraftCache.TruncateTo | src/mini_infer/engine/dspark/draft_cache.py:55-78 | rolling the drafter cache back keeps a prefix, and is refused if it is negative or would grow it |
| Speculative.InjectContext | scripts/dspark/modal_dspark_parity.py:363-369 | drafting leaves in the drafter's cache the injected context and nothing of the block |
| Speculative.VerifyBlock | src/mini_infer/engine/dspark/spec.py:224-248 | one target forward over anchor and offered drafts yields the committed tokens of the round and appends exactly what it was fed |
| Speculative.Settle | scripts/dspark/modal_dspark_parity.py:410-420 | the end of a round re-establishes the whole bookkeeping: output, both caches and context |
| Speculative.ParityRound | scripts/dspark/modal_dspark_parity.py:344-420 | one round keeps all index bookkeeping, commits the specified tokens, and slices one position per injected and block row as far as the table reaches |
| Speculative.ParityRounds | scripts/dspark/modal_dspark_parity.py:332-420 | the loop of check 3 ends with the specified output and bookkeeping, and every round record states where that round started, what it accepted, which rows it injected and how many of the n_prompt + 64 positions it got |
| Speculative.ConfidentPrefixLength | src/mini_infer/engine/dspark/proposal.py:31-51 | how many drafts are offered: up to the first confidence below a positive threshold |
| Speculative.Offer | src/mini_infer/engine/dspark/speculative.py:152-160 | the offered drafts are all of them, or those before the first whose confidence is below a positive threshold |
| Speculative.Emit | src/mini_infer/engine/dspark/speculative.py:186-195 | emission takes committed tokens while there is room, up to and with the first EOS |
| Speculative.EmissionOutcome | src/mini_infer/engine/dspark/speculative.py:186-198 | after the tokens of a round are emitted, the run has either finished with exactly the target-alone output or has everything committed |
| Speculative.RunnerRound | src/mini_infer/engine/dspark/speculative.py:141-215 | one pass of the runner keeps the bookkeeping or finishes with the target-alone output, and its three counters say how many drafts were worth verifying and how many of those were the next trajectory steps |
| Speculative.RunGreedy | src/mini_infer/engine/dspark/speculative.py:102-217 | for every drafter, block size and confidence threshold the generated tokens are those of target-alone decoding; the statistics account for every emitted token, and for every round say what was offered and how much of it was on the trajectory |
| Speculative.Baseline.Decode | scripts/dspark/modal_dspark_bench.py:258-272 | the cached one-token loop returns the greedy tokens |
| Speculative.Baseline.TargetAlone | scripts/dspark/modal_dspark_bench.py:248-276 | a memo hit returns the tokens that recomputation would, and the first measured time; a miss stores both |
| Sampling.AcceptedIsCommon | src/mini_infer/engine/dspark/sampling.py:109-115 | a token is proposed and accepted with probability min(p_target, p_draft), less exactly when both are positive and below 1e-8 |
| Sampling.AcceptSpelledOut | src/mini_infer/engine/dspark/sampling.py:110-111 | acceptance is the ratio of target to draft, at most one, with a draft probability below 1e-8 raised to 1e-8 |
| Sampling.ResidualSpelledOut | src/mini_infer/engine/dspark/sampling.py:78-87 | a rejection draws from the normalised excess when there is more than 1e-8 of it, and from the target otherwise |
| Sampling.EmittedSpelledOut | src/mini_infer/engine/dspark/sampling.py:3-16 | a position emits what is drafted and accepted, and on what acceptance leaves the residual |
| Sampling.RejectionMass | src/mini_infer/engine/dspark/sampling.py:11-16 | the probability of a rejection is the missing target mass plus what the floor took |
| Sampling.EmittedIsDistribution | src/mini_infer/engine/dspark/sampling.py:72-87 | whatever the draft, acceptance and residual together emit a probability distribution |
| Sampling.LosslessExactly | src/mini_infer/engine/dspark/sampling.py:3-16 | a position emits the target distribution if and only if the residual is shared out like what is missing |
| Sampling.LosslessTest | src/mini_infer/engine/dspark/sampling.py:3-27 | the test spelled out: with residual mass above 1e-8, every two tokens must lose and exceed in the same proportion; with less, the draft must be the target scaled by the chance of acceptance, tiny pairs counting as targets at 1e-8 |
| Sampling.LosslessOnRealExcess | src/mini_infer/engine/dspark/sampling.py:18-22 | where one token outside the tiny pairs is above its draft, a position with residual mass above 1e-8 is lossless if and only if no pair is tiny |
| Sampling.LosslessOnLargeMass | src/mini_infer/engine/dspark/sampling.py:18-27 | with residual mass above 1e-8 per token of the vocabulary, a position is lossless if and only if no pair is tiny |
| Sampling.LosslessAboveFloor | src/mini_infer/engine/dspark/sampling.py:78-87 | where no pair of probabilities is below 1e-8, it does so if and only if the residual mass is above 1e-8 or the draft is the target scaled down with the remainder on tokens the target never emits |
| Sampling.EmittedIsClose | src/mini_infer/engine/dspark/sampling.py:18-27 | it is never further off, token by token, than what the floor takes plus the residual mass capped at 1e-8 |
| Sampling.FallbackIsNotExact | src/mini_infer/engine/dspark/sampling.py:23-27 | the fallback to the target on a small residual changes the emitted distribution: a concrete pair |
| Sampling.FloorIsNotExact | src/mini_infer/engine/dspark/sampling.py:18-22 | so does the floor under the draft probability: a concrete pair |
| Sampling.MassBoundIsSharp | src/mini_infer/engine/dspark/sampling.py:81-86 | a residual mass of 1.1e-8 is exact and one of 0.9e-8 is not: two pairs |
| Sampling.FloorIsSharp | src/mini_infer/engine/dspark/sampling.py:110-111 | a token at 1.1e-8 is kept in full and one at 0.9e-8 is not |
| Sampling.CumulativeProductCountsPrefix | src/mini_infer/engine/dspark/sampling.py:115-116 | the sum of the cumulative product of the accept flags counts the leading accepted tokens, whatever comes after |
| Sampling.GreedyCollapse | src/mini_infer/engine/dspark/sampling.py:29-32 | with one-hot distributions a position emits the target argmax, and so does the residual, whatever was proposed |
| Sampling.GreedyPrefix | src/mini_infer/engine/dspark/sampling.py:29-32 | and the accepted prefix is the agreement with the argmax tokens, for any uniform draws |
| Sampling.RoundsStayInBlock | src/mini_infer/engine/dspark/speculative.py:144-160 | a round goes on offering exactly while it has offered fewer drafts than a block and the drafter is confident |
| Sampling.LoopIsLosslessExactly | src/mini_infer/engine/dspark/speculative.py:141-215 | for every drafter, block size and confidence rule, and from any start: every round that a run may begin with some chance goes on with the target's own law of sequences if and only if every position that the run may verify with some chance is lossless |
| Sampling.LoopIsLosslessOnLargeMass | src/mini_infer/engine/dspark/speculative.py:141-215 | where every position that a run may verify has residual mass above 1e-8 per token, those rounds go on with the target's law if and only if the run never meets a tiny pair |
| Sampling.RunIsLosslessExactly | src/mini_infer/engine/dspark/speculative.py:56-62 | a whole sampled generation follows the target's law if and only if the target was certain of the first token, which is always the argmax (line 134), and the loop goes on from there with the target's law |
| Sampling.RunIsLossless | src/mini_infer/engine/dspark/speculative.py:56-62 | where every position that the run may verify is lossless, certainty of the first token is the whole condition |
| Sampling.LoopIsClose | src/mini_infer/engine/dspark/speculative.py:141-215 | whatever the drafter does and whatever tiny pairs the loop meets, no sequence is more or less likely than under the target by more than (n + 1) * 1e-8 per token |
| Sampling.RunIsClose | src/mini_infer/engine/dspark/speculative.py:56-62 | and no whole generation by more than that and the target's doubt about the first token |
| BlockStore.AllocateKeeps | src/mini_infer/cache/block_pool.py:735-745 | allocation hands out a block nobody holds: the one freed last, with nothing cached touched, or without a free one the one longest unreferenced, forgetting only that; it fails only when neither is left |
| BlockStore.IncrefKeeps | src/mini_infer/cache/prefix_cache.py:171-176 | taking a reference keeps every block accounted for |
| BlockStore.IncrefOrder | src/mini_infer/cache/prefix_cache.py:171-176 | the first reference takes the block out of the eviction order, the others in place |
| BlockStore.ReleaseKeeps | src/mini_infer/cache/block_pool.py:747-757 | giving back a held block never meets the double-free error and keeps every block accounted for; it goes to the end of the free list, or of the eviction order when that was its last holder |
| BlockStore.ReleasedIsEvictedLast | src/mini_infer/cache/prefix_cache.py:187-204 | a block that loses its last holder is evicted after all that lost theirs before |
| BlockStore.PublishKeeps | src/mini_infer/cache/prefix_cache.py:133-169 | publishing keeps every block accounted for and adds exactly that entry; a known digest gives the reference to its own block |
| BlockStore.BlocksArePartitioned | src/mini_infer/cache/prefix_cache.py:11-24 | every block is free, cached, or private to one request, never two of them |
| BlockStore.RefusedExactly | src/mini_infer/cache/prefix_cache.py:133-192 | the errors, exactly: an uncached block, one without references, a digest known for other tokens |
| BlockStore.FoundIsLongest | src/mini_infer/cache/prefix_cache.py:114-131 | the found blocks are those of the longest run of leading keys known with their tokens, and no other list is |
| BlockStore.PrefixCache.Lookup | src/mini_infer/cache/prefix_cache.py:114-131 | every key below the count of the result is known with its tokens and gives its entry's block; the key at that count, if any, is unknown or has other tokens |
| BlockStore.PrefixCache.Publish | src/mini_infer/cache/prefix_cache.py:133-169 | the whole new state of the prefix cache after a publish, or the collision error with nothing changed |
| BlockStore.PrefixCache.Incref | src/mini_infer/cache/prefix_cache.py:171-176 | the whole new state after taking a reference, or the key error |
| BlockStore.PrefixCache.Decref | src/mini_infer/cache/prefix_cache.py:178-192 | the whole new state after dropping a reference, or the errors with nothing changed |
| BlockStore.PrefixCache.EvictLru | src/mini_infer/cache/prefix_cache.py:194-204 | takes the head of the eviction order and forgets exactly that block, or reports none |
| BlockStore.BlockPool.Allocate | src/mini_infer/cache/block_pool.py:735-745 | free blocks first, leaving the cache alone, then the head of the eviction order, else out of memory |
| BlockStore.BlockPool.Free | src/mini_infer/cache/block_pool.py:747-757 | a cached block loses a reference, any other becomes free |
| PagedCache.ChainIsInjective | src/mini_infer/cache/prefix_cache.py:75-90 | the chained digest of a block decides every token up to its end |
| PagedCache.MessageDecodes | src/mini_infer/cache/prefix_cache.py:75-90 | the bytes that are hashed, parent digest and tokens with no separator between them, determine both the parent digest and the tokens of a block |
| PagedCache.MessageSpelledOut | src/mini_infer/cache/prefix_cache.py:75-90 | the hashed bytes: the parent digest, then four bytes for each token, the lowest first |
| PagedCache.KeySpelledOut | src/mini_infer/cache/prefix_cache.py:92-112 | key i of a prompt has the tokens of its block and the hash of them behind the digest of the block before |
| PagedCache.WriteStep | src/mini_infer/cache/paged_kv_cache.py:974-988 | writing a request's next row touches a block that only this request names, so all others read what they read before |
| PagedCache.PublishStep | src/mini_infer/cache/paged_kv_cache.py:943-956 | publishing a filled block never fails, and every request goes on reading its own sequence |
| PagedCache.ReadsOwnSequence | src/mini_infer/cache/paged_kv_cache.py:869-874 | through its block table every request reads exactly its own sequence, position by position |
| PagedCache.SharedBlocksAgree | src/mini_infer/cache/paged_kv_cache.py:926-930 | two requests share a block only at the same place and where their prompts agree up to its end |
| PagedCache.NothingLeaks | src/mini_infer/cache/block_pool.py:747-757 | without requests every block can be handed out again |
| PagedCache.HeldCounts | src/mini_infer/cache/block_pool.py:735-757 | a block is held once for every place of a block table that names it |
| PagedCache.PublishedIsTakenOver | src/mini_infer/cache/paged_kv_cache.py:190-243 | whoever comes with the prompt blocks that a request has published takes them all over, also after that request has left; only a prompt that ends with them has the last one run again |
| PagedCache.PagedKVCache.AddRequestSlot | src/mini_infer/cache/paged_kv_cache.py:195-243 | a new request takes over the cached blocks of the longest run of known leading blocks of its prompt, less the last one if that would leave no token to run; other requests and cached blocks are unchanged |
| PagedCache.PagedKVCache.Reserve | src/mini_infer/cache/paged_kv_cache.py:716-734 | claims positions and blocks, no more than they need, without touching any sequence; it fails only when every block is in use |
| PagedCache.PagedKVCache.WriteRows | src/mini_infer/cache/paged_kv_cache.py:974-988 | each request has its new tokens behind its old ones |
| PagedCache.PagedKVCache.PublishFilledBlocks | src/mini_infer/cache/paged_kv_cache.py:917-956 | afterwards the next block is not full or not a whole block of the prompt; the sequence the request reads does not change |
| PagedCache.PagedKVCache.AppendKvPacked | src/mini_infer/cache/paged_kv_cache.py:646-679 | a step appends every request's new tokens to its sequence and publishes every full prompt block, or runs out of blocks with nothing written |
| PagedCache.PagedKVCache.TruncateTo | src/mini_infer/cache/paged_kv_cache.py:260-306 | exactly when a roll-back is accepted; it leaves the fewest leading blocks that hold the length, and the cache as it was; refused, nothing changes |
| PagedCache.PagedKVCache.RemoveRequest | src/mini_infer/cache/paged_kv_cache.py:245-258 | removes one request, leaves all others and everything cached as they were |
| PagedCache.PagedKVCache.ComputeBlockHashes | src/mini_infer/cache/prefix_cache.py:92-112 | the keys of a prompt are, block by block, its tokens and the hash of them behind the digest of the block before |
| PagedCache.PagedKVCache.RollBack | src/mini_infer/scheduler/continuous_scheduler.py:395-422 | after a step that ran out of memory every request has the length it had before |
| PagedCache.PagedKVCache.StepOrRollBack | src/mini_infer/scheduler/continuous_scheduler.py:365-422 | out of memory, a step leaves every request with the sequence, length and published blocks it had, so it can be repeated |
| Auroc.GroupRank | scripts/dspark/modal_dspark_bench.py:146-153 | the averaged position of a tie group is the tie-corrected rank of each of its members |
| Auroc.RankSumMinusOwn | scripts/dspark/modal_dspark_bench.py:154-155 | rank sum less n_pos (n_pos + 1) / 2 is the number of won pairs plus half the ties |
| Auroc.TieRanks | scripts/dspark/modal_dspark_bench.py:143-153 | the tie-group walk gives every position its tie-averaged rank |
| Auroc.ComputeAuroc | scripts/dspark/modal_dspark_bench.py:136-155 | times hits and misses, the result is the number of pairs of a hit and a miss where the hit scores higher, plus half of those that score the same; none if a class is missing |
| Auroc.AurocOne | scripts/dspark/modal_dspark_bench.py:136-155 | it is 1 if and only if every hit scores above every miss |
| Auroc.AurocInUnitInterval | scripts/dspark/modal_dspark_bench.py:136-155 | the result lies in [0, 1] |
| Auroc.AurocIgnoresOrder | scripts/dspark/modal_dspark_bench.py:142-142 | it does not depend on the order of the observations |
| Auroc.AurocOfFlippedLabels | scripts/dspark/modal_dspark_bench.py:136-155 | flipping all labels turns x into 1 - x |
| Auroc.AurocIsRankBased | scripts/dspark/modal_dspark_bench.py:136-137 | any strictly increasing rescaling of the scores leaves it unchanged |
| Calibration.BinsPartition | scripts/dspark/modal_dspark_bench.py:121-126 | every confidence from 0 to 1 is in exactly one bin, and no other number is in any |
| Calibration.BinTotalsAll | scripts/dspark/modal_dspark_bench.py:120-126 | any quantity summed over the bins is that quantity over all observations |
| Calibration.EceIs | scripts/dspark/modal_dspark_bench.py:109-133 | times the number of observations, the error is the sum over the bins of the unsigned sum of confidence less hit over the observations whose confidence, times the number of bins, lies in [b, b + 1), 1 counting to the last bin |
| Calibration.EceBetween | scripts/dspark/modal_dspark_bench.py:109-133 | the calibration error lies between the overall gap of confidence and accuracy and 1 |
| Calibration.ExpectedCalibrationError | scripts/dspark/modal_dspark_bench.py:109-133 | the loop computes the share of observations by which the bins are off; no observations or no bins give 0 |
| Sinkhorn.ColSumsOfTranspose | scripts/deepseek_v4/modal_hc_kernel_probe.py:184-190 | summing along axis 0 is summing the rows of the transpose |
| Sinkhorn.NormalisedIs | scripts/deepseek_v4/modal_hc_kernel_probe.py:84-89 | the reference divides every entry by its column's sum plus eps first, and then in every trip by its row's and again by its column's |
| Sinkhorn.LoopAxis0 | scripts/deepseek_v4/modal_hc_kernel_probe.py:165-178 | the matrix loop computes the reference normalisation (also lines 84-89) |
| Sinkhorn.LoopTrans | scripts/deepseek_v4/modal_hc_kernel_probe.py:179-193 | the transposed matrix loop computes the same matrix |
| Sinkhorn.RowStepOfScaled | scripts/deepseek_v4/modal_hc_kernel_probe.py:221-223 | updating the row scales is a row step of the matrix that the scales stand for |
| Sinkhorn.ColStepOfScaled | scripts/deepseek_v4/modal_hc_kernel_probe.py:224-226 | updating the column scales is a column step of it |
| Sinkhorn.ScaleVecAxis0 | scripts/deepseek_v4/modal_hc_kernel_probe.py:209-230 | carrying only scale vectors gives exactly the matrix of the matrix loop |
| Sinkhorn.ScaleVecTrans | scripts/deepseek_v4/modal_hc_kernel_probe.py:231-250 | so does the variant with transposed in-loop column sums |
| SinkhornBounds.ColumnSumAfterColStep | scripts/deepseek_v4/modal_hc_kernel_probe.py:84-88 | a column step leaves sums c / (c + eps), below 1 exactly when eps > 0 |
| SinkhornBounds.RowSumsAfterIteration | scripts/deepseek_v4/modal_hc_kernel_probe.py:169-175 | row sums in [m, M] and column sums in [s, 1] go to [m / (1 + eps (m + eps)), M / (s + eps (M + eps))], nested at eps = 0 |
| SinkhornConvergence.RowStepKeepsCross | scripts/deepseek_v4/modal_hc_kernel_probe.py:169-175 | row steps never change how far the matrix is from rank one |
| SinkhornConvergence.ColStepKeepsCross | scripts/deepseek_v4/modal_hc_kernel_probe.py:169-175 | nor do column steps |
| SinkhornConvergence.IterationContracts | scripts/deepseek_v4/modal_hc_kernel_probe.py:169-175 | for every eps up to 1/2: where all row and column sums with eps added are within a factor z < 1 / eps of one, an iteration takes z - 1 to (1 - sigma) (z - 1), with a sigma read off the cross ratio, z and eps |
| SinkhornConvergence.SumsApproachLimit | scripts/deepseek_v4/bench_hc_sinkhorn.py:180-200 | from any iteration on, row and column sums approach 1 - eps at a geometric rate known at that iteration |
| SinkhornConvergence.BecomesDoublyStochastic | scripts/deepseek_v4/bench_hc_sinkhorn.py:180-200 | for every eps from 0 to 1 / (n + 1), iterating brings all row and column sums of any positive n x n matrix within any tolerance of 1 - eps, for good |
| Attention.MaskIsTruncation | scripts/tpu/run_tpu_pallas_kernels.py:35-45 | masking behind the first visible rows is cutting there |
| Attention.NothingVisible | scripts/tpu/run_tpu_pallas_kernels.py:63-67 | with no visible row every row weighs the same, padding included |
| Attention.DenseRow | scripts/tpu/run_tpu_pallas_kernels.py:35-45 | row i of causal attention is plain attention over keys 0..i, without the mask over all |
| Attention.AttendIs | scripts/tpu/run_tpu_pallas_kernels.py:35-45 | plain attention is the softmax average over the scaled products of the query with the keys |
| Attention.SoftmaxOfOnlyRow | scripts/tpu/run_tpu_pallas_kernels.py:42-45 | a value row counts with exp(score - max) over the sum of them |
| Attention.SoftmaxAdds | scripts/tpu/run_tpu_pallas_kernels.py:45-45 | the average is additive in the values |
| Attention.SoftmaxBetween | scripts/tpu/run_tpu_pallas_kernels.py:42-45 | it lies between the least and the greatest value of its column |
| Attention.EqualScoresGiveMean | scripts/tpu/run_tpu_pallas_kernels.py:42-45 | equal scores give the mean |
| Attention.DotAdds | scripts/tpu/run_tpu_pallas_kernels.py:36-36 | the product of query and key is additive in each |
| Attention.DotScales | scripts/tpu/run_tpu_pallas_kernels.py:36-36 | and homogeneous in each |
| Attention.DotUnit | scripts/tpu/run_tpu_pallas_kernels.py:36-36 | and picks one entry against a unit vector |
| PagedAttention.GatherAt | scripts/tpu/run_tpu_pallas_kernels.py:56-62 | logical row p is slot p mod page size of the page in table entry p div page size |
| PagedAttention.KvOfGroup | scripts/tpu/run_tpu_pallas_kernels.py:52-64 | a kv head serves exactly the query heads of one group of consecutive ones |
| PagedAttention.ComputeRow | scripts/tpu/run_tpu_pallas_kernels.py:64-70 | the references' inner body computes the specified row |
| PagedAttention.PagedReference | scripts/tpu/run_tpu_pallas_kernels.py:48-71 | decode: every (sequence, head) is the paged row over the whole sequence |
| PagedAttention.PrefillReference | scripts/tpu/run_tpu_pallas_kernels.py:94-119 | prefill: row t is the paged row at length - q_len + t + 1 |
| PagedAttention.SequenceRows | scripts/tpu/run_tpu_pallas_kernels.py:158-167 | filling one sequence changes nothing else of the output |
| PagedAttention.MixedReference | scripts/tpu/run_tpu_pallas_kernels.py:142-168 | mixed: rows t < q_lens[s] are paged rows, rows behind them stay zero |
| PagedAttention.ChunkAsDecodeSteps | scripts/tpu/run_tpu_pallas_kernels.py:94-119 | a prefill chunk equals that many decode steps |
| PagedAttention.MixedAsDecode | scripts/tpu/run_tpu_pallas_kernels.py:142-168 | one query row per sequence: mixed is decode |
| PagedAttention.MixedAsPrefill | scripts/tpu/run_tpu_pallas_kernels.py:142-168 | equally many query rows: mixed is prefill |
| PagedAttention.PagedIsDense | scripts/tpu/run_tpu_pallas_kernels.py:48-71 | through any table that lays the sequence out in order, paged attention is dense attention over its rows, whatever the page numbers, padding entries and page contents behind it |
| PagedAttention.PrefillIsCausal | scripts/tpu/run_tpu_pallas_kernels.py:94-119 | row t of a chunk is its row of causal attention over the whole sequence |
| PagedAttention.PagedMatchesDense | scripts/tpu/run_tpu_pallas_kernels.py:35-71 | the whole decode output is the dense reference of each sequence on its own, head by head, under grouped kv heads |
| PagedAttention.PrefillMatchesDense | scripts/tpu/run_tpu_pallas_kernels.py:35-119 | the whole prefill output is the last q_len rows of the causal dense reference of each sequence |
| PagedAttention.MixedMatchesDense | scripts/tpu/run_tpu_pallas_kernels.py:35-168 | the whole mixed output, with any number of query rows per sequence, is the last rows of each sequence's causal dense reference, and zero behind them |
| PagedAttention.EmptySequenceReadsPages | scripts/tpu/run_tpu_pallas_kernels.py:63-70 | a sequence of length 0 reads what the padding pages hold: a concrete cache |
| PagedAttention.PagesNeverRunOut | scripts/tpu/run_tpu_pallas_kernels.py:76-90 | the cursor never leaves the page permutation |
| PagedAttention.MakeTables | scripts/tpu/run_tpu_pallas_kernels.py:171-194 | the maker writes the specified table (the plain makers, lines 74-91 and 122-139, use the identity permutation) |
| PagedAttention.EntrySpelledOut | scripts/tpu/run_tpu_pallas_kernels.py:171-194 | sequences take the fewest pages that hold them, one after the other from the start of the permutation, and entries behind them are its first page |
| PagedAttention.LivePagesDistinct | scripts/tpu/run_tpu_pallas_kernels.py:171-194 | every live entry is an in-range page of its own, and the live entries cover the length |
| PagedAttention.RowsCanBeStored | scripts/tpu/run_tpu_pallas_kernels.py:171-194 | so any sequences at all can be held over the maker's tables at the same time |
| PagedAttention.MadeTablesMatchDense | scripts/tpu/run_tpu_pallas_kernels.py:48-91 | making the tables and decoding through them gives dense attention over whatever sequences the pages hold |
| Fp8Quant.ElementBelowAbsMax | scripts/minimax_m3/modal_m3_stage_weights.py:93-96 | a tile's absmax bounds its elements, padding or not |
| Fp8Quant.ElementAttainsAbsMax | scripts/minimax_m3/modal_m3_stage_weights.py:93-96 | a nonzero absmax is attained by a real element of the tile |
| Fp8Quant.QuotientInRange | scripts/minimax_m3/modal_m3_stage_weights.py:97-100 | every element divided by its own tile's scale lies in [-448, 448] |
| Fp8Quant.TileReachesTheTop | scripts/minimax_m3/modal_m3_stage_weights.py:97-100 | some element of every nonzero tile reaches magnitude 448 |
| Fp8Quant.StagedScale | scripts/minimax_m3/modal_m3_stage_weights.py:93-98 | a stored scale times 448 is the largest magnitude of its tile's elements; the scale of a zero tile is 1 |
| Fp8Quant.StagedElement | scripts/minimax_m3/modal_m3_stage_weights.py:99-100 | a stored element is the cast of the element over that scale, and a loaded one is the bf16 cast of the two multiplied |
| Fp8Quant.GridIsTheFormat | scripts/minimax_m3/modal_m3_stage_weights.py:100-100 | the modelled grid is exactly the numbers of the e4m3 format: sign, four bits of exponent with bias 7, three of mantissa, no infinities |
| Fp8Quant.GridIsDense | scripts/minimax_m3/modal_m3_stage_weights.py:100-100 | some e4m3 value lies within 1/16 or 2^-10 of every number in range |
| Fp8Quant.CastAccuracy | scripts/minimax_m3/modal_m3_stage_weights.py:100-100 | rounding to nearest e4m3 is that accurate, and exact on e4m3 values |
| Fp8Quant.GridGap | scripts/minimax_m3/modal_m3_stage_weights.py:100-100 | no two e4m3 values are closer than 1/16 of either |
| Fp8Quant.DequantError | src/mini_infer/quant/nvfp4.py:176-205 | with off = max(|w| / 16, scale / 1024), dequantised bf16 elements are off by at most off + (|w| + off) / 256 |
| Fp8Quant.RoundTripKeepsScale | src/mini_infer/quant/nvfp4.py:176-205 | a round trip of bf16 weights through the loader, bf16 cast included, leaves every tile maximum where it was |
| Fp8Quant.RequantIsExact | scripts/minimax_m3/modal_m3_stage_weights.py:76-90 | quantising the bf16 weights that the loader dequantised gives back the staged tensors exactly, although bf16 rounds every product |
| ShardIndex.MatchesPattern | scripts/minimax_m3/modal_m3_stage_weights.py:53-57 | the key matcher accepts exactly the keys language_model.model.layers.<digits>.block_sparse_moe.experts.<digits>.w1, .w2 or .w3 with .weight, and at most one newline, behind |
| ShardIndex.ScaleKeyIsPlain | scripts/minimax_m3/modal_m3_stage_weights.py:53-57 | a generated scale key is never an expert weight itself |
| ShardIndex.TransformShard | scripts/minimax_m3/modal_m3_stage_weights.py:104-129 | the rewritten shard holds a quantised weight and its scales for each expert key and every other tensor as it was; a source key that is also a generated one holds whichever the file lists last; the counts are right |
| ShardIndex.TransformSpelledOut | scripts/minimax_m3/modal_m3_stage_weights.py:104-129 | the rewritten shard key by key, with <key>_scale_inv beside every expert key |
| ShardIndex.IndexWithScales | scripts/minimax_m3/modal_m3_stage_weights.py:138-146 | the rewritten index adds one scale entry per expert key, whatever the order |
| ShardIndex.IndexSpelledOut | scripts/minimax_m3/modal_m3_stage_weights.py:138-146 | the rewritten index key by key: each <key>_scale_inv goes where its weight is |
| ShardIndex.WithScalesIdempotent | scripts/minimax_m3/modal_m3_stage_weights.py:138-146 | rewriting the index twice changes nothing more |
| ShardIndex.RewrittenIndexDescribes | scripts/minimax_m3/modal_m3_stage_weights.py:138-146 | the rewritten index describes the rewritten shards if and only if every clash between a source key and a generated key stays inside one shard |
| Staging.HistoriesAreSound | scripts/minimax_m3/modal_m3_stage_weights.py:185-235 | the staging invariant holds after any sequence of steps, background commits, container losses and restarts |
| Staging.FinalNamesAreComplete | scripts/minimax_m3/modal_m3_stage_weights.py:188-196 | a file under its final name is always the complete transform of its source shard |
| Staging.FinishedRunIsComplete | scripts/minimax_m3/modal_m3_stage_weights.py:185-235 | a finished run has committed every shard and the index over them, whatever happened before; processed + skipped is the shard count |
| Staging.ScratchExactly | scripts/minimax_m3/modal_m3_stage_weights.py:194-197 | while a shard is worked on, scratch holds exactly it and what exceptions stranded between rename and removal: at most one shard if and only if nothing is stranded |
| Staging.ScratchWithinOneExactly | scripts/minimax_m3/modal_m3_stage_weights.py:194-197 | a history keeps scratch within one shard throughout if and only if no run works on a shard while a stranded download is left |
| Staging.ScratchBound | scripts/minimax_m3/modal_m3_stage_weights.py:194-197 | in every state scratch holds at most one shard more than the stranded ones |
| Staging.LossInEveryHistory | scripts/minimax_m3/modal_m3_stage_weights.py:185-235 | in every history, the uncommitted shards are exactly those renamed since the last commit or container loss, and losing the container costs no finished shard if and only if there are none |
| Staging.LossExactly | scripts/minimax_m3/modal_m3_stage_weights.py:207-208 | without background commits and survived exceptions that number is the one that phase and counter tell |
| Staging.LossBound | scripts/minimax_m3/modal_m3_stage_weights.py:207-208 | in every history at most four shards, and four more per survived exception, are uncommitted |
| Staging.RunFinishes | scripts/minimax_m3/modal_m3_stage_weights.py:185-235 | from any reachable state a run left alone finishes, within a bound set by the shard count |
| Staging.EmptyFileIsRedone | scripts/minimax_m3/modal_m3_stage_weights.py:188-196 | a file under its final name is skipped if and only if there is something in it; a missing or an empty one is made again |
| Staging.FourShardsLost | scripts/minimax_m3/modal_m3_stage_weights.py:207-214 | the bound of four is met: a history, for every plan of four shards or more, in which losing the container loses four finished shards |
| Staging.PreemptionCostsFinishedShards | scripts/minimax_m3/modal_m3_stage_weights.py:16-18 | losing the container can cost three finished shards: a concrete history |
| Staging.StrandedDownload | scripts/minimax_m3/modal_m3_stage_weights.py:196-197 | scratch can hold two shards: a concrete history |
| TraceSweep.StackKeepsLive | scripts/kimi_linear/profile_kimi_decode.py:135-137 | the stack never loses an interval that still runs, nested or not |
| TraceSweep.StackIsChainExactly | scripts/kimi_linear/profile_kimi_decode.py:126-150 | the stack is the chain of earlier intervals covering the event at every event if and only if no overhang is visible; nested intervals have none |
| TraceSweep.LabelIsInnermost | scripts/kimi_linear/profile_kimi_decode.py:140-142 | the label is the innermost annotation |
| TraceSweep.SweepThread | scripts/kimi_linear/profile_kimi_decode.py:134-150 | per part, the sweep adds the outermost ops and host reads of the thread over the step count, and creates exactly the parts that it meets |
| TraceSweep.SweepTrace | scripts/kimi_linear/profile_kimi_decode.py:117-151 | summed over all threads, each sorted on its own |
| TraceSweep.SweepCountsNested | scripts/kimi_linear/profile_kimi_decode.py:138-149 | under nesting the counts are those of the quadratic definition: each outermost op once, under its innermost annotation |
| TraceSweep.SweptOpsAddUp | scripts/kimi_linear/profile_kimi_decode.py:143-149 | over all parts the counts add up to the labelled outermost ops |
| TraceNesting.SortedIsNested | scripts/kimi_linear/profile_kimi_decode.py:126-137 | from the unsorted thread: if any two intervals are apart or one contains the other, sorting puts every container before what it contains, and the stack holds what encloses the event |
| TraceNesting.ThreadCounts | scripts/kimi_linear/profile_kimi_decode.py:134-150 | the sweep of such a thread counts exactly the ops inside no other op, and the host reads, whose innermost annotation has the part and is not "step" |
| TraceNesting.TraceCountsEnclosed | scripts/kimi_linear/profile_kimi_decode.py:117-151 | and the whole trace gives, per part, those numbers over all threads divided by the step count, for exactly the parts that some op belongs to |
| Prelude.SortByIsStable | scripts/kimi_linear/profile_kimi_decode.py:126-133 | sorting keeps the order of events with equal keys |
| RankCollect.RunKeepsInv | scripts/deepseek_v4/modal_v4_projection_dtype_probe.py:287-351 | the protocol invariant holds in every interleaving of reports, errors, deaths and clock ticks |
| RankCollect.NormalReturn | scripts/deepseek_v4/modal_v4_projection_dtype_probe.py:332-351 | a normal return carries what every rank reported, once each, and terminated nobody |
| RankCollect.AbnormalExit | scripts/deepseek_v4/modal_v4_projection_dtype_probe.py:333-350 | any other way out has its reason, misses a result, and leaves every worker ended or terminated |
| RankCollect.TerminatedExactly | scripts/deepseek_v4/modal_v4_projection_dtype_probe.py:346-350 | a worker is terminated if and only if it is alive when the clean-up of a failed collection reaches it |
| RankCollect.ReadsBounded | scripts/deepseek_v4/modal_v4_projection_dtype_probe.py:333-345 | the loop reads the queue at most world size + 217 times |
| RankCollect.ParentEnds | scripts/deepseek_v4/modal_v4_projection_dtype_probe.py:320-351 | the parent takes a number of steps bounded by the world size alone, whatever workers and clock do |
| RankCollect.NeverStuck | scripts/deepseek_v4/modal_v4_projection_dtype_probe.py:333-351 | once enough time has passed the parent can always move |
| RankCollect.WaitsExactly | scripts/deepseek_v4/modal_v4_projection_dtype_probe.py:333-350 | the parent waits on the queue until there is a message or 5 seconds are over, and for a worker until it has ended or 10 seconds are over |
| RankCollect.ReadsInOrder | scripts/deepseek_v4/modal_v4_projection_dtype_probe.py:333-345 | messages are read and results kept in the order of the queue; only the news of a failure is dropped, and it ends the collection |
| RankCollect.LookGivesUpExactly | scripts/deepseek_v4/modal_v4_projection_dtype_probe.py:323-341 | a completed look at the workers ends the collection if and only if some worker had ended badly when it was looked at; otherwise the parent goes back to the queue |
| RankCollect.BadEndIsFound | scripts/deepseek_v4/modal_v4_projection_dtype_probe.py:323-341 | a worker that has ended badly by the time it is looked at makes that look end the collection, and is named |
| RankCollect.DeadAreAllFound | scripts/deepseek_v4/modal_v4_projection_dtype_probe.py:338-341 | the error is complete: every worker was looked at, and the named ones are exactly those that had ended badly by that look |
| RankCollect.DeadHaveNoResult | scripts/deepseek_v4/modal_v4_projection_dtype_probe.py:338-341 | a worker is named if and only if it had ended badly when it was looked at, and a named one has no result in the end if and only if it had sent none by that look |
| RankCollect.SilentExitIsWaitedFor | scripts/deepseek_v4/modal_v4_projection_dtype_probe.py:323-341 | if the loop was left while a worker had sent nothing, nobody ended badly and nobody sent an error, then 1080 seconds had passed |
| RankCollect.SilentExitTimesOut | scripts/deepseek_v4/modal_v4_projection_dtype_probe.py:323-341 | a worker that ends with code 0 and without a report is waited for until the deadline: a concrete run of 217 five-second waits that times out at 1085 seconds |
| RankCollect.DeadWorkerHadReported | scripts/deepseek_v4/modal_v4_projection_dtype_probe.py:323-341 | otherwise the error can name a worker whose result was collected: a concrete run |
| RankCollect.ByRankIsIndexed | scripts/deepseek_v4/modal_v4_projection_dtype_probe.py:391-391 | sorted by rank, the results stand at their own ranks |
| RankCollect.Probe | scripts/deepseek_v4/modal_v4_projection_dtype_probe.py:391-399 | ranks_agree holds if and only if every two ranks agree on every pair's tokens and flips |
| GreedyDecode.Prefill | scripts/minimax_m3/modal_m3_generate.py:89-103 | chunked prefill feeds every prompt position once and in order, for any chunk size |
| GreedyDecode.Decode | scripts/minimax_m3/modal_m3_generate.py:84-120 | max(1, max_new_tokens) tokens, each picked from the whole prefix before it and the generator state that the pick before left, without cache or chunks; without a prompt there are none |
| GreedyDecode.DecodedIsTheRun | scripts/minimax_m3/modal_m3_generate.py:108-120 | such a run of picks determines the tokens |
| GreedyDecode.DecodedPrefix | scripts/minimax_m3/modal_m3_generate.py:108-120 | a larger budget only adds tokens |
| GreedyDecode.GreedyNeverStopsEarly | scripts/minimax_m3/modal_m3_generate.py:84-120 | greedy decoding follows the argmax trajectory and ends only at the budget |
| GroupEnds.SearchSeparates | scripts/bench/modal_moe_grouped_bench.py:905-907 | right-biased binary search separates the ids up to an expert from those above |
| GroupEnds.CumulativeCounts | scripts/bench/modal_moe_grouped_bench.py:1125-1126 | the running sum of per-expert counts is the number of ids up to the expert |
| GroupEnds.EndsAgree | scripts/bench/modal_moe_grouped_bench.py:905-907 | both computations find the same segment ends |
| GroupEnds.EndsDelimitRows | scripts/bench/modal_moe_grouped_bench.py:1125-1126 | the ends never fall, end at the row count, and delimit exactly each expert's rows |
| OpenLoop.NeverEarlyNeverDrifts | scripts/bench/http_openloop_bench.py:202-215 | no request goes out before its tick, and one whose tick lies ahead goes out on it |
| OpenLoop.LatenessBounded | scripts/bench/http_openloop_bench.py:202-215 | delays never add up: where no round loses more than an interval, every request of the run goes out within the largest single delay of its tick |
| OpenLoop.BoundedExactly | scripts/bench/http_openloop_bench.py:202-215 | under a steady delay lateness stays bounded if and only if a round loses no more than an interval |
| OpenLoop.ScheduledWithin | scripts/bench/http_openloop_bench.py:203-215 | only the last request can be scheduled at or after the end |
| OpenLoop.CountBounded | scripts/bench/http_openloop_bench.py:201-215 | fewer than duration * rate + 2 requests go out |
| OpenLoop.OnTimeCount | scripts/bench/http_openloop_bench.py:201-215 | on time, exactly one per tick before the end and one more |
| OpenLoop.RunAtRate | scripts/bench/http_openloop_bench.py:194-215 | the loop launches each request on its tick, or at once when that has passed, and stops at the first clock reading past the duration |

## Left out

- Floating point: rounding, underflow of a tile scale to zero, bf16 near-ties, and the accumulated error of the open-loop tick; reals stand for floats, and a masked score has weight exactly 0.
- Ties of the e4m3 cast and the range of bf16: any cast that rounds to nearest on the e4m3 grid is covered, and any bf16 cast with relative error 1/256 that never passes a bf16 number; bf16 subnormals and overflow are not.
- Digest collisions: no two byte strings hashed for submitted prompts are taken to collide, so the collision errors of the prefix cache are modelled but never met.
- Compressed key/value storage, per-layer streams, static steps and device indices of the paged cache: a row stands for all layers of one position, and an append of all layers is one step.
- `merge_request` and `free` of the paged cache: one cache per pool; removing every request frees the cache.
- The scheduler's choice of a victim and its admission policy: the model ends with the roll-back that precedes them.
- The law of uniform and multinomial draws: `Sampling` takes a draw below a to have probability a; a sampled run is described by the law of its tokens up to any length, which decides the law of what EOS and the token limit cut off.
- The drafter's and the target's networks, softmax and temperature: laws and argmax functions are parameters.
- Unicode digits in the shard-key pattern: digits are 0 to 9.
- Sidecar files, the config marker and the byte counts of the staging loop.
- Commits that fail half-way: a commit is atomic.
- Pickling and pipe delays of the rank queue: a report is on the queue at once.
- The names of the traced parts: the mapping from annotation to part is any function.
- Kernels, Modal apps, command lines, reports and timings.
- SinkhornConvergence.BecomesDoublyStochastic: says nothing of guards above 1 / (n + 1), because the code runs eps = 1e-6 at n = 4; from 1 on no positive sum can reach 1 - eps.
