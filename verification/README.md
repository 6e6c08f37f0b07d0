# Verified models of a two-GPU KV-cache runtime

The repository serves long-context language models whose KV cache does not fit one GPU. Its drivers
and library modules contain a small number of algorithms on which everything else rests, and this
project models those and proves what they promise:

* **Attention over a split KV cache.** A streaming `(m, l, o)` fold, a many-way merge of
  `(o, m, l)` parts and a two-way merge of `(O, lse)` partials all have to equal dense softmax attention
  for every split. `exp` and `log` are function values (`Exponential.ExpLog`) whose laws are a
  hypothesis, `Valid()`, never a global fact; the arithmetic is over exact reals. The initial `-inf` is an
  option, and the NaN that a merge of two empty partials produces is a constructor of its own.
  (`Attention`, `PairMerge`, `Tiered`, `ThreeForms`, `FlashMerge`, `RingPrefill`)
* **Double-buffered prefetch on two CUDA streams.** Host program, copy stream and compute stream move
  in any order and meet only through events. `Prefetch` is the step system over all schedules,
  `PrefetchSafety` what holds in every state they reach, `PrefetchProgress` that they come to an end,
  `PrefetchDriver` the host program as imperative code against streams that drift on their own, and
  `PrefetchedAttention` puts the two merge kernels in. `ChunkLoop` and `DecodeLoop` are
  the packing loops and the whole decode step.
* **Two-way tensor parallelism** of a decoder layer and of a whole token, grouped-query heads included;
  `DecoderLayer` says what the parts that both layouts share compute. (`LinearAlgebra`, `TensorParallel`,
  `DecoderLayer`)
* **Thread protocols.** The copy `Train` with its replaceable events, the FIFO copy worker, the paced
  chunk copier, and the grid-stride copy kernel with all its thread interleavings. `TrainHistory` traces
  what a train reports to the moves of its run. (`TrainProtocol`, `TrainHistory`, `TrainDriver`,
  `QueueArm`, `QueueArmDriver`, `Pacer`, `GridCopy`)
* **The operating-point selector** and its do-no-harm gate, the cost model it is calibrated from, and the
  trace replays that score it. (`ElasticPolicy`, `Replay`)
* **Telemetry and calibration loops.** The engine poller and its feeder, the interpolated slowdown curve,
  the fixed-round bisection, the robustness flag and the change-point list of the boundary map.
  (`EngineTpot`, `Feeder`, `KnotCurve`, `Bisection`, `Robustness`, `Boundaries`)

`Options` and `Arithmetic` hold what several of them share.

Concurrency is modelled as steps: one statement of one thread, or one call of the host program, or one
operation of a stream, in every order. Where the source is an object with fields, there is a class whose
methods are tied to the step functions, and the results are proved about runs of those steps.

`dafny verify dfyconfig.toml` checks the whole project.

## Where the code does not do what one would expect

Each of these is proved, with the exact condition.

* `tiered_attention` keeps every row only for `1 <= n_hot <= T` or `n_hot >= 2*T`: between `T` and `2*T`
  the slice start is a small negative number and rows are silently dropped (`Tiered.TieredExact`).
* Merging two empty `(O, lse)` partials gives NaN, and NaN stays. `peer_parallel_attention` therefore
  returns NaN exactly when its first two shards are both empty (`PairMerge.PeerParallelAttention`).
* `overlap_step` and `_stream_back` index `buf[0]` before the loop and so crash on an empty chunk list,
  and on nothing else; `step_prefetch` has the guard (`PrefetchSafety.CrashExactly`).
* `Train.stop` issued before the worker has published its stop event sets a dead event and its wait cannot
  succeed (`TrainProtocol.StopSucceedsExactly`); the callers sleep between start and stop.
* `Train.shutdown` on a started train can be relied on to end the worker exactly when the worker is not
  between its cancel check and the publication of its stop event; in that window it may raise the old stop
  event, and the worker then copies for ever (`TrainProtocol.ShutdownSucceedsExactly`). The callers always
  stop first.
* The grid-stride copy leaves the last `bytes % 16` bytes as they were (`GridCopy.WholeTensorExactly`).
* `DecodeStepModel.calibrate` does not reproduce its own copy-back anchor unless the copy ran at the ideal
  time: the efficiency is measured over read and transfer together but applied to the transfer only, so
  slower copies are predicted too fast (`ElasticPolicy.CalibrationRoundTrip`).
* The robustness flag of the boundary map reads its error bands as relative to the prediction, while
  `experiments/e33_policy_regret.py:101` computes them relative to the measurement. Under measured errors a
  set flag can be trusted, whatever the predictions, exactly when the chosen corner's band is not larger than
  the runner-up's, or the runner-up's is one or more and the flag is never set
  (`Robustness.FlagTrustedExactly`). It misses no sure cell exactly when the chosen corner's band is not
  smaller, or is one or more and no cell is sure (`Robustness.FlagCompleteExactly`).
* The flag compares with the runner-up only. With remote compute, copy-back and host all legal it settles
  every cell exactly when remote compute is chosen, or its band equals the copy-back band, or both bands are
  one or more and no flag is set (`Robustness.FlagSettlesExactly`).
* The fallback in the replay of `e38` for an inadmissible choice is dead code with the repository's own
  selector (`Replay.FallbackNeverTaken`).
* The packing loop of `make_chunks` in `_e19_prefetch.py` ends exactly when nothing is spilled or the chunk
  size is at least one; with something spilled it raises exactly for a negative size and never ends exactly
  for size zero (`ChunkLoop.LoopEndsExactly`). Nothing checks the size before it.

## Model

| member | source | states |
|---|---|---|
| Attention.ScoreAtUnitKey | scripts/_e19_prefetch.py:66-74 | the score at the i-th unit key is `q[i] * scale` |
| Attention.ScoreIsLinearInKey | scripts/_e19_prefetch.py:66-74 | the score is homogeneous and additive in the key, so its values at the unit keys determine it |
| Attention.ScoreScales | scripts/_e19_prefetch.py:66-74 | and homogeneous in the query and in the softmax scale |
| Attention.DenseAnyReference | scripts/_e19_prefetch.py:66-74 | softmax attention may be computed against any reference score: numerator and denominator rescale by the same factor |
| Attention.MergeSummarises | scripts/_e19_prefetch.py:66-79 | one merge step turns a state that summarises the rows seen so far (true running maximum, exact sums at it) into one that summarises them with the new chunk, from the `-inf` state on |
| Attention.FinishIsDense | scripts/_e19_prefetch.py:88-89 | `o / l` of a state that summarises some rows is dense attention over them |
| Attention.StreamedIsDense | scripts/_e19_prefetch.py:83-89 | for every list of nonempty chunks the fold has `l > 0` and returns dense attention over local rows followed by all chunks |
| Attention.DensePermutation | tests/test_peer_parallel.py:38-50 | dense attention does not depend on the order of the rows |
| Attention.StepNoPrefetch | scripts/_e19_prefetch.py:83-89 | the loop over chunks returns dense attention over everything |
| Attention.MakeChunks | experiments/e25_fair_decode.py:161-171 | the slices are the rows in order, each full except the last, none empty |
| ChunkLoop.LoopEndsExactly | scripts/_e19_prefetch.py:54-64 | for every spill and chunk size, when the packing loop ends, when it raises and when it runs for ever |
| ChunkLoop.MakeChunks | scripts/_e19_prefetch.py:54-64 | wherever the loop stops it raises exactly for a negative size with something spilled, and otherwise the chunks are full except the last and add up to the spill |
| PairMerge.MergePairExact | experiments/e20_peer_parallel.py:72-78 | the merge of the partials of two row lists is the partial of their concatenation, exactly when they are not both empty; otherwise it is NaN |
| PairMerge.MergeTreeExact | experiments/e20_peer_parallel.py:66-78 | every binary merge tree over every partition gives the partial of all its rows, exactly when no node merges nothing with nothing |
| PairMerge.PeerParallelExact | experiments/e20_peer_parallel.py:135-143 | the two-device step is dense attention over local and peer rows, exactly when there are any |
| PairMerge.CopybackStep | experiments/e20_peer_parallel.py:186-196 | for any chunk size the chunked fold gives the same output as the partial of all rows, hence as the two-device step |
| PairMerge.PeerParallelAttention | umallm/peer_parallel_attn.py:143-173 | raises exactly on the empty list; otherwise dense attention over the concatenated shards, NaN exactly when the first two are empty |
| PairMerge.PartialPermutation | tests/test_peer_parallel.py:38-50 | partials, and so their merges, do not depend on row order |
| PairMerge.StreamingIsPartial | scripts/_e19_prefetch.py:66-74 | the map `O = o/l`, `lse = m + log l` takes a streaming state to the `(O, lse)` partial of the same rows |
| Tiered.Merge | experiments/e11_tiered_attention_spike.py:48-57 | the loop computes the many-way merge over every list of parts |
| Tiered.TopReferenceIsLargest | experiments/e11_tiered_attention_spike.py:48-57 | the common reference the merge uses is the largest one stored, so no correction factor is above one |
| Tiered.MergedIsDense | experiments/e11_tiered_attention_spike.py:33-57 | parts taken at any reference values merge to dense attention over all their rows |
| Tiered.MergedDependsOnRowsOnly | experiments/e11_tiered_attention_spike.py:48-57 | the merge depends only on the bag of rows: not on the stored references, the split or the order of parts |
| Tiered.TieredIsDenseOverCovered | experiments/e11_tiered_attention_spike.py:60-71 | for every `n_hot` that leaves a hot row the result is dense attention over exactly the rows the two slices cover |
| Tiered.TieredExact | experiments/e11_tiered_attention_spike.py:60-71 | tiered attention is dense for all inputs of n rows exactly when `1 <= n_hot <= n` or `n_hot >= 2n` |
| ThreeForms.ThreeFormsAgree | experiments/e11_tiered_attention_spike.py:33-57 | the three forms agree on every chunk list: the many-way merge equals `o/l`, and the pairwise fold equals `(o/l, m + log l)` of the streaming fold |
| FlashMerge.FlashMergeAttention | umallm/torch_tiered_attn.py:30-90 | whatever the device layout and coalescing limit, the result is dense attention, and the transfers move every block once, in order, in the longest runs that the limit and the devices allow |
| RingPrefill.RingIsCausal | umallm/peer_parallel_attn.py:129-138 | diagonal partial merged with all earlier shards is causal attention at that global position |
| RingPrefill.RingPrefillAttention | umallm/peer_parallel_attn.py:112-140 | the concatenated outputs are dense causal attention over the concatenated sequence, for any number and sizes of shards |
| Prefetch.ExecInv | scripts/_e19_prefetch.py:91-116 | the global invariant holds after every schedule of host, copy stream and compute stream |
| PrefetchSafety.RunIsSafe | scripts/_e19_prefetch.py:91-116 | in every schedule the host does not crash, the accumulator is a prefix of the sequential fold, every queued wait is armed, and at most two list slots are full |
| PrefetchSafety.MergeFindsChunk | scripts/_e19_prefetch.py:110-113 | whenever a merge is next, its event has fired and both halves of its chunk have arrived |
| PrefetchProgress.MoveDecreases | scripts/_e19_prefetch.py:91-116 | every move that can be made lowers a measure that starts at `16 n + 10` |
| PrefetchProgress.StuckIsFinished | scripts/_e19_prefetch.py:91-116 | a state in which nobody can move is exactly one that has the answer and nothing left to copy, and the answer is the sequential fold: no deadlock |
| PrefetchSafety.CrashExactly | experiments/e25_fair_decode.py:175-193 | some schedule crashes exactly when there is no guard and no chunk |
| PrefetchDriver.Gpu.constructor | scripts/_e19_prefetch.py:91-101 | a fresh device with empty queues starts inside the invariant |
| PrefetchDriver.Gpu.CopyStreamStep | scripts/_e19_prefetch.py:102-109 | one operation of the copy stream is the step of the step system and keeps the invariant |
| PrefetchDriver.Gpu.ComputeStreamStep | scripts/_e19_prefetch.py:110-113 | one operation of the compute stream is the step of the step system and keeps the invariant |
| PrefetchDriver.Gpu.Synchronize | scripts/_e19_prefetch.py:114-116 | waiting for the streams always ends, with both queues empty |
| PrefetchDriver.StepPrefetch | scripts/_e19_prefetch.py:91-116 | the host program, run against streams that move whenever they like, returns the sequential fold; without the guard and without chunks it raises |
| PrefetchedAttention.PrefetchIsDense | scripts/_e19_prefetch.py:91-116 | with the fold kernel every schedule that ends returns dense attention, the result of the unprefetched step |
| PrefetchedAttention.OverlapIsPeerParallel | experiments/e25_fair_decode.py:161-193 | with the pairwise kernel over real slices every schedule that ends returns what the peer-parallel step returns |
| DecodeLoop.Pack | scripts/_e21_decode_loop.py:84-95 | the packing loop puts every spilled row in exactly one chunk, in order, each chunk one to the budget of whole blocks and every chunk but the last the whole budget |
| DecodeLoop.BlocksPerChunk | scripts/_e21_decode_loop.py:84-85 | the budget in blocks: as many as fit the kilobytes, and one if none does |
| DecodeLoop.Step | scripts/_e21_decode_loop.py:97-115 | whatever the block size, chunk budget and prefetch flag, the decode step is dense attention over resident and spilled rows |
| TensorParallel.AttentionBranchSplits | experiments/e37_tp_tpot.py:114-126 | the attention branch of the whole layer is the sum of the two ranks' branches, for any grouped-query ratio |
| TensorParallel.MlpBranchSplits | experiments/e37_tp_tpot.py:127-132 | the gated MLP branch is the sum of the two ranks' branches |
| TensorParallel.LayerAgrees | experiments/e37_tp_tpot.py:114-133 | after each layer both ranks hold the single-GPU layer's output |
| TensorParallel.SgToken | experiments/e37_tp_tpot.py:168-178 | the single-GPU loop is the composition of its layers |
| TensorParallel.TpToken | experiments/e37_tp_tpot.py:135-140 | for every depth and input both ranks end with the single-GPU token |
| LinearAlgebra.ApplyIsLinear | experiments/e37_tp_tpot.py:168-178 | the matrix product is homogeneous and additive in the row, and takes the i-th unit row to row i of the matrix |
| DecoderLayer.NormIsLinearInGain | experiments/e37_tp_tpot.py:83-84 | RMSNorm is homogeneous and additive in the gain |
| DecoderLayer.NormHasUnitMeanSquare | experiments/e37_tp_tpot.py:83-84 | with unit gains and a true reciprocal root the row keeps its direction and its mean square becomes m/(m + 1e-5), m being that of the input |
| DecoderLayer.HeadReadsItsGroup | experiments/e37_tp_tpot.py:118-123 | output head h is attention of query head h over KV head h / (query heads per KV head) |
| DecoderLayer.AttentionIsSumOfHeads | experiments/e37_tp_tpot.py:114-126 | every entry of the attention branch is the sum over the query heads, each through its own rows of the output projection |
| DecoderLayer.MlpIsSumOfColumns | experiments/e37_tp_tpot.py:129-131 | every entry of the MLP branch is the sum over the MLP columns of activated gate times up times down |
| DecoderLayer.MlpIsLinearInUp | experiments/e37_tp_tpot.py:129-131 | scaling the up projection scales the branch, for every activation: it is the gate that is activated |
| DecoderLayer.MlpIsLinearInSilu | experiments/e37_tp_tpot.py:129-131 | scaling the activation function scales the branch |
| DecoderLayer.OneColumnMlp | experiments/e37_tp_tpot.py:176-177 | a layer of width one with one MLP column, normalisation included, written out |
| DecoderLayer.LayerIsTwoHalves | experiments/e37_tp_tpot.py:168-178 | a layer with a zero down projection adds attention to x, with a zero output projection the MLP, and the whole layer is the second after the first |
| TrainProtocol.WorkerPreserves | experiments/_s_common.py:80-104 | every statement of the worker keeps the protocol's invariant |
| TrainProtocol.ControllerPreserves | experiments/_s_common.py:106-123 | so does every statement of start, of a stop after publication, and of a shutdown outside the worker's publishing window |
| TrainHistory.AlwaysRecorded | experiments/_s_common.py:80-104 | in every run, of a patient controller or not, and at every statement of the worker, start and stop time are the clock at the last moves that took them, and bytes and runs are those of the copies finished since the train began, but for the one just being added |
| TrainHistory.StopSeesQuiescence | experiments/_s_common.py:80-116 | in every interleaving, when a stop's wait succeeds the worker is parked, as many trains have been published as were asked for, and there are two moves i < j, the last start and the last stop stamp: the clock readings are the clock at i and j, and bytes and runs those of the copies that finished between them |
| TrainProtocol.StartIsPublished | experiments/_s_common.py:80-92 | no start is lost: in every run that follows a start and in which nobody shuts down, the train is published by the worker's sixth statement, which nothing can block |
| TrainProtocol.StopIsAnswered | experiments/_s_common.py:93-104 | in every run that follows the setting of the stop event the completion signal is given by the worker's eighth statement |
| TrainProtocol.ShutdownEndsTheWorker | experiments/_s_common.py:118-123 | in every run that follows a shutdown from rest, mid-train or before the cancel check, the worker has returned after eight of its statements, and if every train asked for was published the last one has been signalled |
| TrainProtocol.ShutdownSucceedsExactly | experiments/_s_common.py:84-92 | of a started train, a shutdown leaves the worker able to return in every continuation exactly outside the window between cancel check and publication |
| TrainProtocol.StrandedForever | experiments/_s_common.py:118-123 | once a shutdown has raised its events past a worker in that window, no continuation ends it |
| TrainProtocol.NeverDeadlocked | experiments/_s_common.py:80-123 | if neither thread can move, the worker has returned after a shutdown |
| TrainProtocol.LostForever | experiments/_s_common.py:111-113 | once a stop has set an event the worker does not watch, no continuation signals it |
| TrainProtocol.StopSucceedsExactly | experiments/_s_common.py:111-116 | a stop can ever succeed exactly when the worker had published its stop event |
| TrainDriver.Train.WorkerStatement | experiments/_s_common.py:80-104 | the object's worker statement is the protocol's step, on all fields, and the run grows by that move |
| TrainDriver.Train.Start | experiments/_s_common.py:106-109 | one more start, worker free to move in between, protocol invariant kept |
| TrainDriver.Train.Stop | experiments/_s_common.py:111-116 | with the worker running throughout, the wait is answered exactly when the train was published; then bytes and duration are the bytes launched and the time passed between the two moves of the run that began and ended the train, which began after the last one had ended, the worker is parked and every start served; otherwise the stop is lost |
| TrainDriver.Train.Shutdown | experiments/_s_common.py:118-123 | from rest or on any started train the three events are raised with the worker running in between; outside the publishing window the protocol's invariant is kept |
| TrainDriver.Train.RunOut | experiments/_s_common.py:80-104 | after such a shutdown the worker thread returns, having signalled the last train if it was published |
| TrainDriver.Census | experiments/s1_governor_calib.py:150-191 | over any number of rates there is one start and one figure per rate, figure k being the bytes and duration of a train of its own between two moves of the run, begun after the earlier trains had ended; no stop runs into its limit, and at the end the worker has returned |
| QueueArm.RunConserves | experiments/s2_receiver_ingress.py:80-116 | in every interleaving submissions = records ++ dropped ++ in flight ++ queue, and a dropped item means stop is set and is the only one |
| QueueArm.RecordsAreAPrefix | experiments/s2_receiver_ingress.py:80-116 | the records answer a prefix of the submissions in order, with at most one submission neither recorded nor queued |
| QueueArm.RunIsTimely | experiments/s2_receiver_ingress.py:80-111 | copies never overlap, none begins before its submission, submission times are in queue order |
| QueueArm.RecordsMeasureCopies | experiments/s2_receiver_ingress.py:80-111 | in every run each record has two consecutive moves of the worker, one that takes up the copy of its submission and one that ends it; start and completion are the clock at those moves, so the duration is the time waited between them, and the submission is the run's, stamped with the clock of its own move |
| QueueArm.StopEndsTheWorker | experiments/s2_receiver_ingress.py:88-116 | in every run that follows a stop, submitters still at work, the worker has exited after five of its statements and at most one record was added |
| QueueArm.WorkDrains | experiments/s2_receiver_ingress.py:80-111 | in every run without a stop, submitters still at work, as many worker statements as the backlog needs (five per queued item and the rest of the one in hand) have recorded everything that had been submitted, in order |
| QueueArmDriver.Arm.Submit | experiments/s2_receiver_ingress.py:80-82 | the new state is the old one with the stamped item at the end of queue and history |
| QueueArmDriver.Arm.WorkerStatement | experiments/s2_receiver_ingress.py:88-111 | one statement of the worker is the step function, on all fields |
| QueueArmDriver.Arm.QueueLen | experiments/s2_receiver_ingress.py:84-86 | what is left in the queue is what was submitted less what is recorded, given up (at most one) and in the worker's hands |
| QueueArmDriver.Arm.Shutdown | experiments/s2_receiver_ingress.py:113-116 | while others keep submitting the join returns, with at most one more record and a prefix of the submissions answered |
| Pacer.WindowNeverExceedsLease | umallm/governor/pacer.py:12-18 | over any window between two launches of a spaced train the bytes launched before its end are at most cap times its length, however the rate moved below the cap |
| Pacer.PeriodIsExact | umallm/governor/pacer.py:124-128 | the period of a chunk is exactly the time its bytes take at the rate in force |
| Pacer.OneChunkPerPeriod | umallm/governor/pacer.py:12-18 | no other chunk is launched within a chunk's period |
| Pacer.ChunksCover | umallm/governor/pacer.py:84-86 | a chunk index is in range exactly when it begins inside the tensor, and its end is clipped to it |
| Pacer.PacedCopier.Pace | umallm/governor/pacer.py:101-113 | the nap loop ends, either cancelled or with the clock past the due time |
| Pacer.PacedCopier.Run | umallm/governor/pacer.py:68-132 | dst holds exactly the launched prefix of src and is otherwise untouched, byte and chunk counts are those of the prefix, not cancelled means the whole tensor; paced launches are spaced, none comes before the pacing clock handed in, and by the later of the one handed back and the time of return the last has had its period; the clock handed back is at most the periods of the launches past the later of the one handed in and the time, and an unpaced copy leaves it alone |
| Pacer.PacedCopier.LaunchChunk | umallm/governor/pacer.py:114-128 | one chunk is copied and the pacing clock set: one period after the later of the old clock and the time the rate was read, or left alone when the rate asks for no gap |
| Pacer.PacedCopier.Sustain | experiments/_s_common.py:90-98 | the launches of any number of consecutive runs are spaced as one train: no burst where one run ends and the next begins; and it is not held back: the pacing clock ends at most the periods of all its launches past the time |
| GridCopy.StoreStrided | experiments/g12_sm_copy.py:29-31 | a thread's store takes it past exactly one index, which nobody has stored before |
| GridCopy.CopyKernel | experiments/g12_sm_copy.py:27-32 | for every grid size and every interleaving of loads and stores each index below n4 is stored exactly once and nothing else, and the kernel ends with the first `16 n4` bytes copied and the rest unchanged |
| GridCopy.SmCopy | experiments/g12_sm_copy.py:43-50 | dst is the whole words of src followed by its own tail |
| GridCopy.WholeTensorExactly | experiments/g12_sm_copy.py:43-50 | the tensor arrives whole for every previous content of dst exactly when its size is a multiple of 16 |
| ElasticPolicy.AdmissibleExactly | umallm/elastic_policy.py:222-249 | when each point is available, in bytes: the whole KV within the single-card capacity, the half that is not kept within the peer's free memory over a link no slower than the host's, an idle peer for remote compute; the host always |
| ElasticPolicy.GateIsExact | umallm/elastic_policy.py:318-365 | the gate passes a point exactly when all four do-no-harm rules hold for it, and names one that it breaks otherwise |
| ElasticPolicy.CandidatesAreLegal | umallm/runtime/selector.py:109-123 | restricted candidates are admissible and break no rule except choosing unmeasured tensor parallelism |
| ElasticPolicy.CandidatesExactly | umallm/runtime/selector.py:109-123 | a point is a candidate exactly when it is admissible and does no harm, or is unmeasured tensor parallelism, admissible and with one card not enough |
| ElasticPolicy.SelectPoint | umallm/elastic_policy.py:261-284 | the chosen point is admissible and has a least prediction, whatever order the set is visited in; the deadline flag is exact |
| ElasticPolicy.Repair | umallm/runtime/selector.py:173-193 | a refused choice is replaced by a point that is fastest among all admissible points that do no harm |
| ElasticPolicy.OnlineSelect | umallm/runtime/selector.py:126-170 | for every cost model what is chosen does no harm and is fastest among all admissible points that do no harm; non-strict something is always chosen; strict, only unmeasured tensor parallelism can be refused; with an honest model nothing is refused; and which points the decision carries along |
| ElasticPolicy.HonestIsNeverRefused | umallm/runtime/selector.py:120-123 | a model that gives unmeasured tensor parallelism no latency never makes it the choice: the gate is a tripwire |
| ElasticPolicy.StepModelIsHonest | umallm/elastic_policy.py:137-162 | the calibrated decode-step model is such a model, whatever its constants |
| ElasticPolicy.MoveIsAtRate | umallm/elastic_policy.py:127-135 | moving tokens at a rate takes exactly their bytes over the rate |
| ElasticPolicy.HostIsCopybackOverPcie | umallm/elastic_policy.py:137-162 | the host path is predicted as the copy-back path at the PCIe rate, with its own setup and no inefficiency |
| ElasticPolicy.RemoteIsSingleOverShare | umallm/elastic_policy.py:137-162 | remote compute is predicted as a single card over its share of the context and one round trip per layer |
| ElasticPolicy.SingleAnchorsReproduced | umallm/elastic_policy.py:189-213 | fitting fails only when latency does not rise, and otherwise both single-GPU anchors are predicted back exactly |
| ElasticPolicy.CalibrationRoundTrip | umallm/elastic_policy.py:189-219 | which anchors the fitted model predicts back: single always, remote compute exactly when not below intercept plus read, copy-back exactly at the ideal time, and too fast when slower, its transfer stretched by just the ratio of the measured to the ideal time |
| Replay.RegretAtLeastOne | experiments/e38_online_loop.py:150-166 | the selector's total is never below the oracle's, and equal exactly when every chosen arm is a cheapest one |
| Replay.ConfusionAddsUp | experiments/e38_online_loop.py:162-166 | the confusion counts add up to the log and their diagonal to its matches |
| Replay.ReplayTrace | experiments/e38_online_loop.py:146-166 | for any selector and latencies the loop's totals, counts and log are consistent and the regret at least one |
| Replay.FallbackNeverTaken | experiments/e38_online_loop.py:157-160 | with the repository's selector the fallback branch is never taken: the arm charged is the one decided on, the host for tensor parallelism |
| Replay.ReplayOnline | experiments/eB5_policy.py:163-202 | every request is judged in order: logged with the arm of a point that is fastest among the admissible ones that do no harm, against the points its decision carries, or refused because unmeasured tensor parallelism is fastest; counters and totals are those of the outcomes, regret is at least one, and with an honest model or no tensor parallelism nothing is refused |
| Replay.FixedArmIsRunnable | experiments/eB5_policy.py:212-220 | each fixed policy runs its own arm, except remote compute on a busy peer and a full single card, which run copy-back; and which arms its oracle chooses from |
| Replay.FixedPolicy | experiments/eB5_policy.py:209-225 | a fixed policy's regret is at least one, and one exactly when its arm is always a cheapest runnable one |
| EngineTpot.ReportedMean | experiments/s11_engine_loop.py:71-90 | in any mix of calls a call reports exactly when the count moved between its own two readings, and its mean times the observations counted is the movement of the sum between them |
| EngineTpot.NoObservationTwice | experiments/s11_engine_loop.py:71-90 | for any mix of delta and window calls, raising ones included, the reported spans are disjoint and in order |
| EngineTpot.DeltasTelescope | experiments/s11_engine_loop.py:71-76 | in a run of deltas the weighted reports account for the whole movement of the sum except what moved while the count stood still |
| EngineTpot.WeightedMeanIsOverallMean | experiments/s11_engine_loop.py:71-76 | with sums that do not go back, the count-weighted mean of the reports is the overall mean exactly when the sum never moved without a count |
| EngineTpot.NetMean | experiments/s11_engine_loop.py:71-76 | with nothing known of the sums, exactly when what moved without a count is zero net |
| EngineTpot.Poller.DeltaMs | experiments/s11_engine_loop.py:71-76 | result and new reference reading for every reading, failed reads included |
| EngineTpot.Poller.WindowMs | experiments/s11_engine_loop.py:78-90 | mean times observations is the movement of the sum between its own two readings, rate times seconds that of the count, and the reference moves even when the call raises for want of tokens |
| Feeder.Feed | experiments/s11_engine_loop.py:218-238 | at every tick what is fed is determined by the most recent real delta, its age and the present poll |
| Feeder.FedIsFresh | experiments/s11_engine_loop.py:218-238 | a fed value is the most recent real delta, less than five seconds and at most nineteen ticks old, and one that recent is always fed unless the poll raised |
| Feeder.AtMostNineteenKeepAlives | experiments/s11_engine_loop.py:228-238 | at most nineteen keep-alives between two real deltas, then silence |
| Feeder.NineteenAreReached | experiments/s11_engine_loop.py:228-238 | the bound of nineteen is attained |
| KnotCurve.DividesByZeroExactly | experiments/s1_governor_calib.py:53-62 | over any sorted knots the reading divides by zero exactly when the first two share the footprint asked for, or below a first knot at zero |
| KnotCurve.PredictionIsPolyline | experiments/s1_governor_calib.py:59-62 | the scan reads one polyline through the origin and the knots, the same whichever bracket holds the point, and is constant above the last knot |
| KnotCurve.ThroughKnots | experiments/s1_governor_calib.py:59-62 | the curve passes through every knot |
| KnotCurve.Continuous | experiments/s1_governor_calib.py:59-62 | readings differ by at most the steepest bracket's slope times the distance, across brackets and ends |
| KnotCurve.RisingExactly | experiments/s1_governor_calib.py:59-62 | the readings never fall exactly when the first knot is not negative and the knots never fall |
| Bisection.EnoughRounds | experiments/g5_hbm_footprint_isolation.py:99-120 | with `2^k > n` rounds the answer is the least pass count reaching the goal, or the default if none does; further rounds change nothing, even if zero passes already reach it |
| Bisection.RightForAllExactly | experiments/g5_hbm_footprint_isolation.py:99-120 | it is right for every rising timing exactly when `2^k > n` |
| Bisection.CalibratePaced | experiments/g5_hbm_footprint_isolation.py:99-120 | the source's range, rounds and default are enough |
| Robustness.LabelCell | experiments/eB4_boundary_map.py:82-98 | when the flag is decided by a comparison, and which |
| Robustness.FlagIsExact | experiments/eB4_boundary_map.py:98-98 | the comparison holds exactly when the choice beats the runner-up for all true latencies in the bands |
| Robustness.OneBandBeatsAll | experiments/eB4_boundary_map.py:89-98 | when the alternatives share a band the flag holds exactly when the choice beats all of them |
| Robustness.FlagSettlesTheCell | experiments/eB4_boundary_map.py:64-98 | with the source's bands that is the case when remote compute is chosen or not legal |
| Robustness.FlagSettlesExactly | experiments/eB4_boundary_map.py:64-98 | with all three corners legal the flag settles every cell exactly when remote compute is chosen, or the two bands are equal, or both are one or more |
| Robustness.FlagCanMissTheHostPath | experiments/eB4_boundary_map.py:64-98 | one of the other cells: copy-back is flagged robust although the host path may win |
| Robustness.MeasuredErrorsExact | experiments/e33_policy_regret.py:95-101 | for errors relative to the measurement the choice surely wins exactly when the comparison holds with the bands swapped, however wide they are |
| Robustness.FlagTrustedExactly | experiments/eB4_boundary_map.py:62-98 | under measured errors a set flag means a sure win for all predictions exactly when the choice's band is not the larger one or the runner-up's is one or more |
| Robustness.FlagCompleteExactly | experiments/eB4_boundary_map.py:62-98 | and every sure win is flagged exactly when the choice's band is not the smaller one or is itself one or more |
| Robustness.EqualBandsAgree | experiments/eB4_boundary_map.py:98-98 | for equal bands of any width the flag is set exactly for sure wins |
| Robustness.FlagCanMissMeasuredErrors | experiments/eB4_boundary_map.py:62-98 | one flagged cell, the choice's band being the larger, that is lost although both predictions are within their measured errors |
| Robustness.ErrBands | experiments/eB4_boundary_map.py:54-69 | each streamed corner's band is its worst held-out error with a 5% floor, and the host path takes the copy-back's |
| Boundaries.FindBoundaries | experiments/e34_boundary_map.py:71-81 | the list expands back to exactly the row and neighbours differ |
| Boundaries.NoShorterList | experiments/e34_boundary_map.py:71-81 | no list of change points, in any order and at any points, describes the row in fewer entries |

## Left out

- Floating-point and fp16 rounding, fused kernels and quantised cold tiers: all arithmetic is over exact reals.
- Batch, head and query axes of attention: one query row of one head carries the whole argument.
- Attention.MergeSummarises: asks for a nonempty chunk, because the maximum of an empty one raises in the source.
- Attention.StepNoPrefetch: asks for nonempty local rows for the same reason.
- FlashMerge.FlashMergeAttention: asks for at least one block; with none the source divides zero by zero.
- Attention.MakeChunks: asks for a slice size of at least one, which the driver enforces before it.
- DecodeLoop.Step: resident and spilled rows are given; how the driver sizes them from its arguments is not part of this model.
- PairMerge.CopybackStep: asks for a chunk size of at least one, which the source enforces before it.
- RingPrefill.RingPrefillAttention: the softmax scale is given; without one the source reads it off the first shard and so raises when there is none.
- TensorParallel.TpToken: head counts and MLP width are even, as the source asserts for the heads; with an odd MLP width its integer halves would drop a column. SiLU, reciprocal square root and per-head attention are arbitrary functions.
- PrefetchSafety.RunIsSafe: bounds the host's list only; what the caching allocator keeps after a slot is cleared is not part of this model.
- TrainDriver.Train.Stop: the 30-second limit is a number of worker statements, at least the eight that an answer can take; bytes and duration are returned instead of their quotient.
- TrainDriver.Train.Start: the rate is only handed on to the copier and is not part of this model.
- TrainDriver.Train.Settle: the callers' fixed pause is modelled as lasting until publication.
- TrainDriver.Train.Shutdown: the synchronisation of the copy stream at its end is not part of this model.
- QueueArmDriver.Arm.QueueLen: the percentiles and window totals that stats() computes from the records are not part of this model.
- QueueArmDriver.Arm.Shutdown: the join has no time limit, and synchronising the stream afterwards is not part of this model.
- Pacer.PacedCopier.Run: copies take effect at launch; the depth-limited queue, rate samples and gap statistics only let time pass or record it. The clock never goes back and cancel may be seen set at any poll.
- GridCopy.CopyKernel: the loop variable is unbounded; the source's 64-bit one is only ever below n4 plus the grid size. Memory is sequentially consistent per word.
- ElasticPolicy.AdmissibleExactly: every token has some KV; for a geometry with none the source divides by zero.
- ElasticPolicy.OnlineSelect: metrics, logging, probing of live state and reason strings are not part of this model; predictions are reals or infinite, never NaN.
- ElasticPolicy.CalibrationRoundTrip: takes the two smallest single-GPU anchors as arguments; the check for fewer than two is not part of this model.
- Replay.ReplayTrace: rounding of the reported regret is not part of this model.
- EngineTpot.NoObservationTwice: assumes the engine's count does not go back, as for any counter between restarts; text parsing and HTTP are parameters.
- ChunkLoop.MakeChunks: is not given the one input family on which the loop never ends.
- Feeder.AtMostNineteenKeepAlives: ticks are at least a quarter of a second apart, which is what the wait between polls gives.
- KnotCurve.PredictionIsPolyline: before rounding to two decimals, over the sorted points with distinct positive footprints; file access is a parameter.
- Bisection.EnoughRounds: the measured time is one function of the pass count that does not fall; repeated noisy measurements are not part of this model.
- Robustness.LabelCell: the map cell's text fields and the overwriting of the flag by a measured anchor are not part of this model.
- Boundaries.FindBoundaries: the label is any function of the context length; drawing the map is not part of this model.
- The paced governor's control loop, ledger, placement, vLLM integration, peer allocation and compression modules: separate subsystems that none of these results needs.
- The e26, e27, e31, e32 and eB2 drivers repeat the prefetch pipeline, g11b and g12b the copy kernel.
- CUDA timing, NVML and DCGM probes, JSON, CSV and plot output, argument parsing and HTTP clients: I/O.
