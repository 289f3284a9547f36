# A model of the speculative signature checking experiments

The repository speeds up the checking of old blocks with help that nobody has
to trust: hints for signatures, batches of equations, speculative answers,
vectorised arithmetic, a compact advice file, a pool of workers, and a helper
that ships unspent outputs. This project models those parts and proves that
none of them can change a verdict.

**Speculation.** `scripts.dfy` gives Scripts as decision trees, since the next
signature check depends on the answers so far, and the ordinary execution of a
tree. `hook.dfy` is the batched producer hook: the classes `Hook.Session` and
`Hook.Group` answer some checks `true` before their equations are settled, queue
the equations, settle them in batches, and replay what a batch did not confirm.
The worker may fail at any call, and another thread may raise `disabled` before
any read of it. The results are the ordinary ones in every case. `ordinary_runs.dfy`
says what the ordinary run, its counts and its hints are without the functions that
compute them.

**Batches.** `fields.dfy`, `groups.dfy` and `ecdsa.dfy` state what is assumed of
the curve: every nonzero residue has an inverse, the points form a commutative
group of prime order, points other than zero are the solutions of the curve
equation, and decompression finds the solution of the wanted parity. The
ordinary check is the one of section 4.1.4 of SEC 1 version 2.0. `engine.dfy` has
Montgomery's trick and the hint producers. `batch_equation.dfy`, `batches.dfy`,
`batches_short.dfy`, `key_table.dfy`, `batches_coalesced.dfy` and
`batches_sorted.dfy` have the randomised equation, its short form, and the two
ways of merging repeated keys. All variants are tied to one predicate,
`BatchEquation.BatchAccepts`, and its soundness and completeness are proved once.
`verdicts.dfy` and `batch_verdicts.dfy` say from the bytes of a record what is read,
when the ordinary check accepts, and when a batch does.

**Arithmetic.** `arith.dfy`, `limbs.dfy`, `field_mul.dfy` and `field_sqr.dfy` follow
the five-limb multiplication and squaring on 64-bit words that wrap, with the
biases written out. `points.dfy` has normalisation, negation, halving and the small
multiples; `jacobian.dfy` the point operations in place; `curve_formulas.dfy` the
polynomial identities behind them; `point_sums.dfy` the same operations seen from the
group. The prime is the one of section 2.4.1 of SEC 2 version 2.0. `ladder_ops.dfy` and `ladder.dfy` have the four interleaved ladders.

**Transport.** `counts.dfy` has the canonical counts, `codec.dfy` and `frames.dfy`
the packed advice format, `frame_bytes.dfy` the place and value of each byte of it,
`reader.dfy` the reader with one frame of lookahead, and
`pool.dfy` the worker pool as a state machine over its locked steps.

**Outputs.** `utxo.dfy` and `utxo_helper.dfy` have the helper's walk over a chain
against the plain replay of creations and spends; `utxo_survivors.dfy` what the hints
mean, which is the unspent outputs exactly when no outpoint is created again and left
unspent; `utxo_answers.dfy` which block is answered with which claims; `elias_fano.dfy`
the encoder and `elias_fano_bytes.dfy` its bytes.

Machine words are integers with the wrap-around, the masks and the shifts written
out. Loops over arrays and objects that change in place keep that form.

## Model

| member | source | states |
|---|---|---|
| Scripts.ExactIsOrdinary | experiments/code/ecdsa_batched_producer_hook.rs:564-566 | an adaptive execution whose answers all turned out right is the ordinary one, check by check |
| Scripts.OrdinaryIsExact | experiments/code/ecdsa_batched_producer_hook.rs:735-739 | the ordinary execution is complete and every answer in it is right |
| OrdinaryRuns.RunIsOrdinary | experiments/code/ecdsa_batched_producer_hook.rs:735-739 | the ordinary verdict and path are those of the one run from question to question in which every answer is the verified one |
| OrdinaryRuns.EveryScriptRuns | experiments/code/ecdsa_batched_producer_hook.rs:711-711 | every Script has such a run |
| OrdinaryRuns.TotalsCount | experiments/code/ecdsa_batched_producer_hook.rs:582-592 | the two totals are the number of checks and the number of false checks, each step of each path counted once |
| OrdinaryRuns.AnyFailsMeans | experiments/code/ecdsa_stream_pool.rs:23-23 | the error flag of a group is set exactly when some result is a failure |
| Hook.Session.constructor | experiments/code/ecdsa_batched_producer_hook.rs:446-511 | a session starts with no counts and an empty trace, disabled when the sidecar was rejected |
| Hook.Session.RunGroup | experiments/code/ecdsa_batched_producer_hook.rs:536-648 | for all jobs, hints, worker replies and failures: the ordinary results; ordinary final counts unless a batch of a consuming group was not accepted; frames aligned with the ordinary execution; what joins the trace are the keyed frames of 1 to 80,000 hints, all of them and in order |
| Hook.Session.ChooseMode | experiments/code/ecdsa_batched_producer_hook.rs:540-552 | Pack and small consuming groups run plainly; a disabled session runs plainly or, when producing, unbatched; otherwise the mode is the session's own |
| Hook.Session.Judge | experiments/code/ecdsa_batched_producer_hook.rs:553-604 | whatever the first pass did, the group ends with the ordinary results, and with ordinary counts and frames unless it failed |
| Hook.Session.FirstPass | experiments/code/ecdsa_batched_producer_hook.rs:553-559 | after the speculative pass nothing is queued, and a consuming group that did not fail gave only right answers |
| Hook.Session.Resolve | experiments/code/ecdsa_batched_producer_hook.rs:560-594 | a batched group, replayed where needed, ends with every answer right, the counts of that execution, and aligned frames |
| Hook.Session.RunPlain | experiments/code/ecdsa_batched_producer_hook.rs:595-604 | discarding a group and running it plainly gives the ordinary results |
| Hook.Session.Emit | experiments/code/ecdsa_batched_producer_hook.rs:625-644 | the trace keeps what it held and grows by the group's frames |
| Hook.EmittedIsFiled | experiments/code/ecdsa_batched_producer_hook.rs:631-643 | the emitted frames sit at increasing positions, exactly those whose frame has at least 1 and at most 80,000 hints, each beside its own job's key |
| Hook.Session.WorkerBatch | experiments/code/ecdsa_batched_producer_hook.rs:143-160 | the worker may fail or reject wrongly; only an acceptance means all equations hold |
| Hook.Session.WorkerProduce | experiments/code/ecdsa_batched_producer_hook.rs:161-175 | the worker fails or gives the exact hint |
| Hook.Session.WorkerProduceMany | experiments/code/ecdsa_batched_producer_hook.rs:176-192 | the worker fails or gives the exact hint of every record |
| Hook.Session.AllValid | experiments/code/ecdsa_batched_producer_hook.rs:358-363 | small batches: true exactly when every queued equation holds |
| Hook.Group.constructor | experiments/code/ecdsa_batched_producer_hook.rs:242-263 | a new group satisfies the invariant of its mode with nothing started |
| Hook.Group.ProduceOne | experiments/code/ecdsa_batched_producer_hook.rs:275-296 | an exact hint, or nothing and the session is disabled |
| Hook.Group.Remember | experiments/code/ecdsa_batched_producer_hook.rs:297-306 | the cache stays exact and bounded; past the bound nothing is stored |
| Hook.Group.FlushProducer | experiments/code/ecdsa_batched_producer_hook.rs:307-346 | afterwards nothing is queued, and every step outside a transaction marked for retry has its right answer and exact frame entry |
| Hook.Group.Settle | experiments/code/ecdsa_batched_producer_hook.rs:321-331 | the frames are the old ones with every reply written to its slot, and the marks the old ones with those of the unknown replies; the invariant is kept |
| OrdinaryRuns.WrittenMeans | experiments/code/ecdsa_batched_producer_hook.rs:325-330 | an entry named by a slot ends as the last reply for that slot, every other entry and every key as it was |
| Hook.MarkedMeans | experiments/code/ecdsa_batched_producer_hook.rs:328-329 | exactly the transactions with an unknown reply are newly marked |
| Hook.Group.MarkRetry | experiments/code/ecdsa_batched_producer_hook.rs:332-338 | when no reply comes, every transaction with a queued step is marked |
| Hook.Group.FlushConsumer | experiments/code/ecdsa_batched_producer_hook.rs:352-395 | either every answer so far is right or the group has failed and the session is disabled |
| Hook.Group.Flush | experiments/code/ecdsa_batched_producer_hook.rs:347-396 | in every mode flushing empties the queue and keeps the group's invariant |
| Hook.Group.VerifyBatched | experiments/code/ecdsa_batched_producer_hook.rs:753-779 | a check that is not canonical is verified, a cached one answered from the cache, any other answered true and queued; the invariant is kept |
| Hook.Group.VerifyProduced | experiments/code/ecdsa_batched_producer_hook.rs:780-814 | an unbatched producer's answer is right and its frame entry is unknown or exact |
| Hook.Group.VerifyConsumer | experiments/code/ecdsa_batched_producer_hook.rs:824-843 | an optimistic answer is given exactly to a hinted canonical check of an unfailed group in an enabled session, and every other answer is the ordinary one |
| Hook.Group.Verify | experiments/code/ecdsa_batched_producer_hook.rs:735-844 | every mode records exactly the given answer on the running transaction and keeps the invariant |
| Hook.Group.RunScript | experiments/code/ecdsa_batched_producer_hook.rs:711-711 | the verdict is where the tree ends after the recorded answers |
| Hook.Group.Reuse | experiments/code/ecdsa_batched_producer_hook.rs:663-676 | a reused transaction counts, frames and verdict are those of a fresh ordinary run |
| Hook.Group.Transaction | experiments/code/ecdsa_batched_producer_hook.rs:650-733 | one more path is recorded, earlier ones stay, and a batching group keeps its verdict and counts |
| Hook.Group.Work | experiments/code/ecdsa_stream_pool.rs:17-25 | all jobs run in order, each to the end of its tree, with an error reported exactly when one failed |
| Hook.ReusablesExact | experiments/code/ecdsa_batched_producer_hook.rs:563-578 | each verdict kept for reuse is the one a fresh run would give, with its frame and counts |
| Hook.ExactGroup | experiments/code/ecdsa_batched_producer_hook.rs:582-594 | a group with only right answers has the ordinary results and the ordinary checks |
| Hook.UnmarkedIsExact | experiments/code/ecdsa_batched_producer_hook.rs:325-330 | once nothing is queued, an unmarked transaction has only right answers and an exact frame |
| Hook.NothingMarked | experiments/code/ecdsa_batched_producer_hook.rs:560-562 | a group without a retry needs no replay |
| Hook.SettleOne | experiments/code/ecdsa_batched_producer_hook.rs:325-330 | one reply settles exactly the step its slot names, or marks that step's transaction |
| Hook.PushProducer | experiments/code/ecdsa_batched_producer_hook.rs:754-778 | one more answered or queued check keeps frames, slots and answers in step |
| Hook.AllQueuedValid | experiments/code/ecdsa_batched_producer_hook.rs:376-388 | an accepted batch makes every optimistic answer a right one |
| Hook.DirectAligned | experiments/code/ecdsa_batched_producer_hook.rs:804-811 | frames have one entry per ordinary check, unknown or exact, and are all exact when the session was never disabled |
| OrdinaryRuns.HintMeans | experiments/code/ecdsa_batched_producer_hook.rs:753-778 | the exact entry of a check is 255 unless the check is canonical and true, and then the worker's hint, at most 3 |
| Hook.ForksAgree | experiments/code/ecdsa_batched_group_producer_hook.rs:534-553 | the reusing and the replaying fork give equal results and counts, and equal frames when no worker call failed |
| Fields.Unwind | experiments/code/ecdsa_advice.c:386-391 | one step back through Montgomery's trick yields the inverse of the last factor and the inverse of the rest |
| Fields.ProductInvertible | experiments/code/ecdsa_advice.c:171-175 | a product of nonzero residues is nonzero, so the one inversion exists |
| Groups.MulInjective | experiments/code/ecdsa_advice.c:374-376 | in a group of prime order two multiples of a nonzero point agree only for equal scalars |
| Groups.SumUpdate | experiments/code/ecdsa_advice.c:355-361 | replacing one term changes a sum by exactly that term |
| Groups.SumPermuted | experiments/code/ecdsa_coalesced_worker.c:55-56 | adding up the same terms in another order gives the same sum |
| Ecdsa.AdvisedKeyIsReal | experiments/code/ecdsa_advice.c:276-302 | whatever y is advised, a key taken from it is the key decompression gives |
| Ecdsa.RealAdviceTaken | experiments/code/ecdsa_advice.c:276-286 | the real y is always taken |
| Ecdsa.TwoCandidates | experiments/code/ecdsa_advice.c:150-155 | comparing x with r and then with r + n is the test x mod n = r |
| Ecdsa.NonceMatches | experiments/code/ecdsa_advice.c:304-321 | a rebuilt nonce is a curve point whose x reduces to r |
| Ecdsa.HintRoundTrip | experiments/code/ecdsa_advice.c:304-321 | the hint of a point rebuilds that point for x = r and for x = r + n |
| Verdicts.KeyMeans | experiments/code/ecdsa_advice.c:128-134 | a key decompresses to a point exactly when the point's x is the big-endian number of its last 32 bytes and its first byte is 2 or 3 with the parity of y |
| Verdicts.AdviceMeans | experiments/code/ecdsa_advice.c:276-286 | a key is taken from the advised y exactly when it is the key's own point and y the advised one |
| Verdicts.ParseMeans | experiments/code/ecdsa_advice.c:124-135 | parsing succeeds exactly when r and s lie strictly between 0 and n and the key names a point, and then reads r, the lower of s and n - s, the message modulo n, and that point |
| Verdicts.OrdinaryMeans | experiments/code/ecdsa_advice.c:115-122 | the ordinary verdict is true exactly when the scalars and the key read from the record pass steps 4 to 8 of section 4.1.4 of SEC 1 version 2.0 |
| Verdicts.NonceMeans | experiments/code/ecdsa_advice.c:304-321 | a hint rebuilds a point exactly when it is at most 3, its low bit is the parity of y, its high bit says whether x is r or r + n, and a full y agrees |
| Verdicts.HintedMeans | experiments/code/ecdsa_advice.c:188-210 | a produced hint has the parity of y in its low bit and the overflow of x in the next, carries y, and changes nothing else of the record |
| Engines.ProduceHint | experiments/code/ecdsa_advice.c:188-210 | succeeds exactly on the records the ordinary check accepts, and then gives the parity and overflow bits and y of the result |
| Engines.AdviceWorks | experiments/code/ecdsa_advice.c:188-210 | produced advice rebuilds the very point the ordinary check computes |
| Engines.ToAffine | experiments/code/ecdsa_advice.c:256-259 | dividing by the square and the cube of z recovers the affine coordinates |
| Engines.Engine.BatchInversion | experiments/code/ecdsa_advice.c:161-184 | the mask is the ordinary verdict of every record, an invalid record disturbing no other |
| Engines.Engine.VerifyPreinverted | experiments/code/ecdsa_advice.c:140-156 | with the right inverse supplied, the verdict is the one of section 4.1.4 of SEC 1 |
| Engines.Engine.ParseAndInvert | experiments/code/ecdsa_advice.c:167-180 | every entry holds its parsed record and inverse, an invalid one standing in as 1 |
| Engines.Engine.ScalarInverseBatch | experiments/code/ecdsa_advice.c:378-392 | every prepared scalar gets its inverse and nothing else changes |
| Engines.Engine.InvertAll | experiments/code/ecdsa_advice.c:386-391 | the way back inverts every scalar from one inverse |
| Engines.Engine.Results | experiments/code/ecdsa_advice.c:225-236 | succeeds exactly when every record parses, and then holds every record's result point |
| Engines.Engine.Scales | experiments/code/ecdsa_advice.c:238-249 | every finite result gets the inverse of its z, infinities passed over |
| Engines.Engine.WriteHints | experiments/code/ecdsa_advice.c:250-267 | advice is written record by record up to the first invalid one |
| Engines.Engine.ProduceHintsBatch | experiments/code/ecdsa_advice.c:216-270 | succeeds exactly when producing each record's hint succeeds, and then leaves those same hints and y values |
| BatchEquation.ResidualZero | experiments/code/ecdsa_advice.c:8-9 | the residual sR - rQ - zG vanishes exactly when R is the point the ordinary check computes |
| BatchEquation.ZeroResidualIsVerdict | experiments/code/ecdsa_advice.c:9-13 | a vanishing residual is the ordinary verdict, so a forged hint can only fail |
| BatchEquation.ZeroResidualsAccept | experiments/code/ecdsa_advice.c:332-368 | when every residual vanishes the batch accepts for all coefficients |
| BatchEquation.AtMostOneCoefficient | experiments/code/ecdsa_advice.c:332-368 | with the others fixed, at most one value of a coefficient lets a nonzero residual through |
| BatchEquation.AtMostOneAccepts | experiments/code/ecdsa_advice.c:332-368 | a record the ordinary check rejects passes for at most one value of its coefficient |
| BatchEquation.MSumBump | experiments/code/ecdsa_advice.c:548-548 | adding to one scalar of the sum adds that multiple of its point |
| BatchEquation.BalanceStep | experiments/code/ecdsa_advice.c:357-361 | one record's two terms and generator share add its scaled residual |
| BatchEquation.BalanceDecides | experiments/code/ecdsa_advice.c:363-367 | with the generator's scalar negated the whole sum is the batch equation |
| Batches.Batch | experiments/code/ecdsa_advice.c:332-368 | accepts exactly when there are at most 8192 records, all parse with their hints, and the combination vanishes |
| BatchVerdicts.BatchMeans | experiments/code/ecdsa_advice.c:332-368 | the batch equation accepts exactly when every record and hint can be read and the running sums they give go from zero to zero, each record adding its coefficient times sR - (rQ + zG) of what its bytes and hint stand for |
| BatchEquation.EquationStep | experiments/code/ecdsa_advice.c:355-361 | one more record adds its coefficient times its residual to the combination |
| Batches.AddRecord | experiments/code/ecdsa_advice.c:355-361 | the two terms of a record extend the equation by that record |
| Batches.TryRecord | experiments/code/ecdsa_advice.c:340-362 | a record or hint that does not parse is a rejection of the whole batch |
| Batches.Decide | experiments/code/ecdsa_advice.c:363-367 | the closing multi-multiplication decides the equation |
| Batches.OrdinaryCheck | experiments/code/ecdsa_advice.c:115-122 | the ordinary verification of one record |
| Batches.HonestAdviceAccepts | experiments/code/ecdsa_advice.c:188-210 | honest advice for valid records is accepted under every choice of coefficients |
| Batches.WithFallback | experiments/code/ecdsa_advice.c:561-569 | a valid record stays valid whatever its hint; an invalid one passes only if the batch equation let it |
| ShortBatches.BatchShort | experiments/code/ecdsa_advice.c:394-483 | the short check, with or without key advice, is the plain check with coefficients a / s |
| ShortBatches.ShortStep | experiments/code/ecdsa_advice.c:422-429 | one record in the short form is that record in the plain form with coefficient a / s |
| BatchVerdicts.RescaledMeans | experiments/code/ecdsa_advice.c:370-376 | each short coefficient times s is the plain coefficient modulo n |
| ShortBatches.AtMostOneShort | experiments/code/ecdsa_advice.c:370-376 | the rewrite keeps the bound: at most one short coefficient passes an invalid record |
| ShortBatches.Load | experiments/code/ecdsa_advice.c:448-452 | loading succeeds exactly when every record parses, key advice or not |
| ShortBatches.LoadInverses | experiments/code/ecdsa_advice.c:453-453 | every loaded s gets its inverse |
| KeyTables.KeyTable.constructor | experiments/code/ecdsa_advice.c:501-503 | the table's capacity is a power of two and at least twice the number of keys to come |
| KeyTables.KeyTable.Find | experiments/code/ecdsa_advice.c:511-516 | probing ends, at the key's own slot or at an empty slot when the key has no group |
| KeyTables.KeyTable.Route | experiments/code/ecdsa_advice.c:508-525 | equal keys always get the same group and a new key the next number |
| KeyTables.NotFull | experiments/code/ecdsa_advice.c:501-501 | with fewer groups than slots a probe always meets an empty slot |
| KeyTables.EmptyMeansAbsent | experiments/code/ecdsa_advice.c:513-517 | a probe that ends at an empty slot has not missed the key |
| KeyTables.Inserted | experiments/code/ecdsa_advice.c:517-520 | taking an empty slot leaves every earlier group where probing finds it |
| CoalescedBatches.GroupsAreKeys | experiments/code/ecdsa_advice.c:504-526 | two records share a group exactly when their keys are equal |
| CoalescedBatches.RouteAll | experiments/code/ecdsa_advice.c:504-526 | two records get the same group exactly when their keys are equal, every group term is the key of its records, and there are at most n groups |
| CoalescedBatches.MergedKey | experiments/code/ecdsa_advice.c:545-548 | adding to a group's scalar adds that multiple of the group's key to the sum |
| CoalescedBatches.MergeAll | experiments/code/ecdsa_advice.c:529-558 | the merged sum decides the unmerged equation |
| CoalescedBatches.BatchShortMerged | experiments/code/ecdsa_advice.c:492-559 | merging repeated keys accepts exactly when the unmerged short check does for the same coefficients |
| SortedBatches.OrderIrrelevant | experiments/code/ecdsa_coalesced_worker.c:55-61 | the sorted records with their own coefficients decide the same equation |
| SortedBatches.NewKeyIsNew | experiments/code/ecdsa_coalesced_worker.c:61-61 | in key order a key that differs from its predecessor has not been seen at all |
| SortedBatches.ParseSorted | experiments/code/ecdsa_coalesced_worker.c:64-69 | reusing the previous record's key point parses the record as from scratch |
| SortedBatches.SortRecord | experiments/code/ecdsa_coalesced_worker.c:81-94 | opening a key term or adding to the last one extends the equation by the record |
| SortedBatches.BatchSorted | experiments/code/ecdsa_coalesced_worker.c:45-101 | the sorted merging check accepts exactly when the plain check does, with one term per distinct key |
| Limbs.Columns | experiments/code/ezw_body.c:5-23 | once the biases cancel no column has overflowed, and the columns sum to the product |
| Limbs.StepColumns | experiments/code/ezw_body.c:16-23 | one product moves each bias account by exactly one |
| Limbs.ColumnsExact | experiments/code/ezw_body.c:11-23 | with every bias cancelled a word is its true column sum, at most nine limbs |
| FieldMul.Resolve | experiments/code/ezw_body.c:24-30 | the limbs have the columns' value and no carry is left |
| FieldMul.FoldColumns | experiments/code/ezw_body.c:31-36 | limbs 5 to 9 fold to 16C times their value without overflow |
| FieldMul.FoldTops | experiments/code/ezw_body.c:37-48 | the top folds change the value by a multiple of p; after three passes limb 5 is empty |
| FieldMul.Combine | experiments/code/ezw_body.c:49-60 | the sum is cut at 2^256 into reduced limbs and a carry below 2^16 |
| FieldMul.CarryPass | experiments/code/ezw_body.c:61-71 | one residual pass brings what lies above 2^256 back times C |
| FieldMul.Residual | experiments/code/ezw_body.c:61-71 | the carry left after the two passes is zero, and the residue is kept |
| FieldMul.Mul | experiments/code/ezw_body.c:2-72 | the result is congruent to the product modulo p, in reduced limbs, for every pair of reduced inputs and any aliasing |
| FieldSqr.Gather | experiments/code/ezw_body.c:77-100 | diagonal and doubled off-diagonal halves sum to the square without overflow |
| FieldSqr.ResolveSquare | experiments/code/ezw_body.c:101-111 | the square's limbs have its value; the unmasked last column stays below 2^44 |
| FieldSqr.Sqr | experiments/code/ezw_body.c:73-153 | the result is congruent to the square modulo p, in reduced limbs |
| Points.Norm | experiments/code/dbl4_ezw.c:41-58 | limbs grown by up to six bits come back into range with the same residue |
| Points.Add | experiments/code/dbl4_ezw.c:67-70 | the sum modulo p in reduced limbs |
| Points.Neg | experiments/code/dbl4_ezw.c:75-87 | the negation modulo p, each wrapped limb given 2^52 back |
| Points.MulInt | experiments/code/dbl4_ezw.c:88-97 | a small multiple modulo p from two 32-bit halves |
| Points.Half | experiments/code/dbl4_ezw.c:98-121 | twice the result is the input modulo p, in reduced limbs |
| Points.Sub | experiments/code/dbl4_ezw.c:126-128 | the difference modulo p in reduced limbs |
| CurveFormulas.DoubleOnCurve | experiments/code/dbl4_ezw.c:154-171 | doubling maps solutions of the curve equation to solutions |
| CurveFormulas.DoubleIsTangent | experiments/code/dbl4_ezw.c:154-171 | doubling is the tangent rule of the affine curve at every scale |
| CurveFormulas.AddIsChord | experiments/code/dbl4_ezw.c:131-152 | mixed addition is the chord rule of the affine curve at every scale |
| Jacobian.Double | experiments/code/dbl4_ezw.c:154-171 | the Jacobian doubling formula modulo p, limbs kept in range, the output allowed to be the input |
| Jacobian.AddMixed | experiments/code/dbl4_ezw.c:131-152 | the mixed addition formula modulo p, limbs kept in range, for an output apart from the input |
| PointSums.DoublePoint | experiments/code/dbl4_ezw.c:154-171 | limbs that stand for a point of the curve are doubled to limbs that stand for its double |
| PointSums.AddPoint | experiments/code/dbl4_ezw.c:131-152 | limbs of a point and affine limbs of one with another x coordinate give limbs of their sum |
| LadderOps.Dbl | experiments/code/ecmult4_matched_bench.c:20-30 | doubles the point the coordinates stand for, infinity included |
| LadderOps.AddGe | experiments/code/ecmult4_matched_bench.c:31-58 | adds a point kept at the ladder's scale, equal, opposite and infinite points included |
| LadderOps.AddZinv | experiments/code/ecmult4_matched_bench.c:59-90 | adds a point of the curve itself to coordinates kept at another scale |
| LadderOps.Degenerate | experiments/code/ecmult4_matched_bench.c:43-47 | the tests on h and i vanish exactly when the x coordinates, and then the points, coincide |
| LadderOps.DoubledIsSum | experiments/code/ecmult4_matched_bench.c:23-29 | the doubling formula gives coordinates of a + a |
| LadderOps.AddedIsSum | experiments/code/ecmult4_matched_bench.c:48-57 | the chord formula gives coordinates of a + b when the x coordinates differ |
| Ladder.ValueIsPowerSum | experiments/code/ecmult4_matched_bench.c:123-127 | a digit list stands for the sum of its digits times powers of two |
| Ladder.Lane.Bits | experiments/code/ecmult4_matched_bench.c:118-122 | a lane's length covers all four of its digit lists |
| Ladder.Lane.Entry | experiments/code/ecmult4_matched_bench.c:128-135 | the table entry for a digit is that multiple of the base, negated for a negative digit |
| Ladder.Lane.AddOne | experiments/code/ecmult4_matched_bench.c:128-129 | a list shorter than the common length, or a zero digit, adds nothing; any other digit adds its multiple |
| Ladder.Lane.AddDigits | experiments/code/ecmult4_matched_bench.c:127-135 | all four digits of a position are added |
| Ladder.Lane.Double | experiments/code/ecmult4_matched_bench.c:125-126 | one doubling doubles every list's value |
| Ladder.Lane.NothingYet | experiments/code/ecmult4_matched_bench.c:116-125 | past all of a lane's lists the lane is still at infinity, however long the other lanes are |
| Ladder.Ladder4 | experiments/code/ecmult4_matched_bench.c:113-170 | each lane ends with the sum of its digits times powers of two times its base points, whatever the other lanes hold |
| Ladder.Lane.ResultMeans | experiments/code/ecmult4_matched_bench.c:113-170 | a lane's result is the sum of its four bases, each times the sum of its digits times powers of two |
| Counts.CompactReads | experiments/code/ecdsa_stream_codec.rs:51-83 | a written count reads back whatever follows it |
| Counts.CountCanonical | experiments/code/ecdsa_stream_codec.rs:62-83 | only the canonical form of a count reads as it, for counts of every width; below 2^32 that is the form the writer writes |
| FrameBytes.CompactBytes | experiments/code/ecdsa_stream_codec.rs:51-61 | a count is one byte up to 252, three up to 65,535 and five above, tag first and little-endian |
| Codec.PackedSymbol | experiments/code/ecdsa_stream_codec.rs:112-112 | the two bits read at a position are the symbol packed there |
| Codec.Repacked | experiments/code/ecdsa_stream_codec.rs:144-155 | a packing with zero padding is determined by its symbols |
| Codec.ParseBody | experiments/code/ecdsa_stream_codec.rs:85-175 | every encodable list of at most 100,000 transactions decodes to itself |
| Codec.BodyOfParse | experiments/code/ecdsa_stream_codec.rs:123-175 | a body that decodes is byte for byte the body written for the decoded hints |
| Frames.RoundTripExactly | experiments/code/ecdsa_stream_codec.rs:85-127 | what the writer writes decodes to itself exactly when it has at most 100,000 transactions |
| FrameBytes.WrittenBytes | experiments/code/ecdsa_stream_codec.rs:85-121 | exactly the hints within every bound, given as numbers, are written, as the hash, a four-byte length, the counts, two bits a hint (0 and 1 as they are, 255 as 2, 2 and 3 as 3), zero padding, and the hints 2 and 3 in order |
| FrameBytes.DecodedBytes | experiments/code/ecdsa_stream_codec.rs:123-175 | a body decodes to hints exactly when it is those hints laid out byte by byte and the transaction bounds hold |
| FrameBytes.PacketBytes | experiments/code/ecdsa_stream_codec.rs:206-226 | a frame is taken off a file exactly when the file starts with its hash, its length in four little-endian bytes of at most the frame bound, and its body |
| Frames.WrittenYetRefused | experiments/code/ecdsa_stream_codec.rs:85-127 | a block of 100,001 transactions without checks is written and then refused |
| Frames.WriteCounts | experiments/code/ecdsa_stream_codec.rs:86-98 | counts are written exactly when no transaction or block bound is broken |
| Frames.PackInto | experiments/code/ecdsa_stream_codec.rs:99-114 | symbols are packed in place and escapes kept in order, unless a hint is unknown |
| Frames.PackStep | experiments/code/ecdsa_stream_codec.rs:112-112 | a symbol lands in free bits of its byte and nowhere else |
| Frames.WriteFrame | experiments/code/ecdsa_stream_codec.rs:85-121 | a frame is written exactly for hints within every bound, as hash, length and body, the bytes FrameBytes.WrittenBytes describes |
| Frames.DecodeCounts | experiments/code/ecdsa_stream_codec.rs:128-139 | the counts read are the specified ones, with the same refusals |
| Frames.DecodeHints | experiments/code/ecdsa_stream_codec.rs:149-173 | the hints read are the specified ones, every escape used and none left |
| Frames.Decode | experiments/code/ecdsa_stream_codec.rs:123-175 | accepts exactly the bodies that stand for some hints, and gives those hints, as FrameBytes.DecodedBytes lays them out |
| Readers.Reader.Open | experiments/code/ecdsa_stream_codec.rs:190-205 | opens exactly the files that start with the magic |
| Readers.Reader.ReadNext | experiments/code/ecdsa_stream_codec.rs:206-226 | takes the next whole frame off the file and counts its bytes, and fails on a truncated or oversized one |
| Readers.Reader.Block | experiments/code/ecdsa_stream_codec.rs:227-252 | the pending frame is consumed exactly when it is the asked block's; the statistics follow |
| Readers.Reader.Run | experiments/code/ecdsa_stream_codec.rs:227-252 | a whole run of questions gets the specified answers |
| Readers.FileHolds | experiments/code/ecdsa_stream_codec.rs:206-226 | a file of written frames holds those frames |
| Readers.AnswersAreOwn | experiments/code/ecdsa_stream_codec.rs:237-251 | an answer comes from the frame its question consumed, and that frame carries the asked hash |
| Readers.ConsumedInOrder | experiments/code/ecdsa_stream_codec.rs:228-241 | frames are consumed once each and in file order |
| Readers.UsesExactly | experiments/code/ecdsa_stream_codec.rs:237-241 | a question consumes the first frame not yet consumed, exactly when that frame has its hash |
| Readers.OneBadBody | experiments/code/ecdsa_stream_codec.rs:242-251 | a malformed body changes no answer but its own frame's |
| Readers.AllDelivered | experiments/code/ecdsa_stream_codec.rs:227-252 | when the frames follow the order of distinct questions, every frame reaches its block |
| Readers.WrittenFileDelivers | experiments/code/ecdsa_stream_codec.rs:85-252 | hints written in block order come back to their blocks |
| Pools.Pool.constructor | experiments/code/ecdsa_stream_pool.rs:2-8 | an idle pool satisfies the invariant |
| Pools.Pool.Submit | experiments/code/ecdsa_stream_pool.rs:42-53 | a block's jobs join the queue together with the countdown at their number |
| Pools.Pool.Take | experiments/code/ecdsa_stream_pool.rs:4-15 | with as many idle workers as are not counted active, at least one, a worker takes from the front of the queue the least number with which that many workers would empty it, or its capacity if that is less |
| Pools.Pool.CheckGroup | experiments/code/ecdsa_stream_pool.rs:16-25 | a group is verified or replayed as a whole before any of its jobs is reported |
| Pools.Pool.Note | experiments/code/ecdsa_stream_pool.rs:28-32 | a failure takes its block's error slot unless one is there |
| Pools.Pool.Report | experiments/code/ecdsa_stream_pool.rs:33-35 | the countdown goes down by one and wakes the block's waiter at zero |
| Pools.Pool.Leave | experiments/code/ecdsa_stream_pool.rs:37-37 | a worker with everything reported becomes idle and the active count follows |
| Pools.GroupSizeBounds | experiments/code/ecdsa_stream_pool.rs:9-14 | from a non-empty queue at least one job is taken and never more than queued, whatever active count was read |
| Pools.GroupSizeShare | experiments/code/ecdsa_stream_pool.rs:9-14 | k jobs are taken where k is within the capacity, (k - 1) times the idle workers is below the queue, and k is the capacity or k times the idle workers covers the queue |
| Pools.StepKeeps | experiments/code/ecdsa_stream_pool.rs:2-53 | every step of any worker keeps the invariant: each job in exactly one place, each countdown equal to its block's unreported jobs |
| Pools.EveryRun | experiments/code/ecdsa_stream_pool.rs:2-53 | the invariant holds in every state of every interleaving |
| Pools.ZeroMeansDone | experiments/code/ecdsa_stream_pool.rs:26-36 | at zero every job of the block is verified and reported exactly once, and the error slot is set exactly when one failed |
| Pools.FirstErrorMeans | experiments/code/ecdsa_stream_pool.rs:29-32 | the error slot is filled exactly when some noted job of the block failed |
| Pools.FirstErrorIsFirst | experiments/code/ecdsa_stream_pool.rs:29-32 | the error slot holds the error of the first noted failure of the block |
| Pools.NeverStuck | experiments/code/ecdsa_stream_pool.rs:2-39 | while work remains each worker has a step to take |
| Pools.StepLowers | experiments/code/ecdsa_stream_pool.rs:2-39 | every step but a submission lowers the work that remains |
| Pools.RunsComplete | experiments/code/ecdsa_stream_pool.rs:2-39 | without further submissions every schedule is bounded, and it can only come to rest with nothing queued, all workers waiting, every countdown at zero and every job reported once |
| Utxo.SpendInput | tools/swift_local_mainnet.py:276-290 | an input is accepted exactly when the replay allows it; a coin of this block vanishes, an earlier one becomes a claim |
| Utxo.CreateOutput | tools/swift_local_mainnet.py:291-303 | an output is accepted exactly when its outpoint is not live and the live set stays within its cap |
| Utxo.WalkTx | tools/swift_local_mainnet.py:274-303 | a transaction's walk is the replay of its spends and then its creations |
| Utxo.WalkBlock | tools/swift_local_mainnet.py:268-305 | a block's walk succeeds exactly when all its events fit, and keeps the live map and claims of the replay |
| Utxo.CreatedByBlock | tools/swift_local_mainnet.py:300-300 | only the block at a height creates coins of that height |
| UtxoHelper.HelperDataset | tools/swift_local_mainnet.py:260-309 | succeeds exactly on chains of at most 501 blocks whose events all fit, and then returns the replay's claims, survivors and totals |
| UtxoAnswers.EventsAreListed | tools/swift_local_mainnet.py:268-300 | the events of a chain are exactly the inputs of transactions other than coinbases and the spendable outputs of the blocks from 1 on, in the order of their places, inputs before outputs |
| UtxoAnswers.FitsMeans | tools/swift_local_mainnet.py:277-303 | when an event fits the live map, with every cap as a number |
| UtxoAnswers.ResponsesMean | tools/swift_local_mainnet.py:304-305 | for every chain a hash is answered exactly when some block with it spends a coin of an earlier height, and the answer is the claims of the last such block, in input order |
| UtxoAnswers.DistinctHashesAnswered | tools/swift_local_mainnet.py:304-305 | with distinct hashes every block that spends an earlier coin is answered with its own claims, and no other block is answered |
| UtxoAnswers.TxCountMeans | tools/swift_local_mainnet.py:269-269 | the total is the number of transactions of the blocks from 1 on |
| UtxoAnswers.CreatedInOrder | tools/swift_local_mainnet.py:300-300 | the outputs of a height are its creations in the order of their events |
| UtxoAnswers.SurvivorsIncrease | tools/swift_local_mainnet.py:306-308 | the hints of a height increase |
| UtxoHelper.ClaimsAreSpends | tools/swift_local_mainnet.py:282-287 | a claim list holds exactly the inputs that spend a live coin of an earlier height, each with its number and that coin |
| UtxoHelper.BlockClaimsIncrease | tools/swift_local_mainnet.py:273-290 | each claim list is in strictly increasing input order |
| UtxoSurvivors.LiveMeansUnspent | tools/swift_local_mainnet.py:263-301 | on an accepted chain the live coins are the created and never spent ones if and only if every repeated outpoint is spent again |
| UtxoSurvivors.HintsAreSurvivors | tools/swift_local_mainnet.py:306-308 | on an accepted chain the hints of every height are exactly the ordinals of its outputs that are never spent if and only if every repeated outpoint is spent again |
| UtxoSurvivors.SpentYetLive | tools/swift_local_mainnet.py:279-301 | a coin that is live although it was spent was created a second time and not spent since |
| UtxoSurvivors.RecreatedIsHinted | tools/swift_local_mainnet.py:295-308 | a chain of three blocks that is accepted and in which a spent output is hinted |
| UtxoSurvivors.Conservation | tools/swift_local_mainnet.py:279-301 | every created coin is live, claimed, or spent in its own block |
| UtxoSurvivors.CreatedIsAccountedFor | tools/swift_local_mainnet.py:260-309 | created outputs are survivors plus claims plus same-block spends if and only if every repeated outpoint is spent again |
| UtxoSurvivors.DistinctChain | tools/swift_local_mainnet.py:260-309 | with distinct outpoints the hints are the never spent outputs and the created outputs balance |
| EliasFano.SetBit | tools/swift_local_mainnet.py:312-313 | sets that bit and no other |
| EliasFano.WithBitMeans | tools/swift_local_mainnet.py:312-313 | or-ing one bit in changes only that bit |
| EliasFanoBytes.ShiftMeans | tools/swift_local_mainnet.py:333-335 | shifting right by k divides by the k-th power of two |
| EliasFanoBytes.BitMeans | tools/swift_local_mainnet.py:312-313 | bit p of a buffer is bit p mod 8 of byte p / 8 |
| Counts.SizeReads | tools/swift_local_mainnet.py:114-143 | a size written anywhere reads back with the offset just past it exactly when it is within the limit |
| Counts.SizeCounts | tools/swift_local_mainnet.py:114-121 | a written size reads back whatever follows it |
| EliasFanoBytes.SizeBytes | tools/swift_local_mainnet.py:114-121 | a size is one, three, five or nine bytes, tag first and little-endian |
| Counts.ReadCompact | tools/swift_local_mainnet.py:124-143 | reads the specified size at an offset, refusing truncated, noncanonical and oversized ones |
| Counts.ReadIsWritten | tools/swift_local_mainnet.py:124-143 | what reads as a size is its written form and within the limit |
| EliasFano.HighShort | tools/swift_local_mainnet.py:325-328 | the high part is shorter than 3n bits |
| EliasFano.HighPosInRange | tools/swift_local_mainnet.py:328-335 | every unary bit falls inside the high part |
| EliasFano.LowPosInRange | tools/swift_local_mainnet.py:327-334 | every low bit falls inside the low part |
| EliasFano.LowPosDistinct | tools/swift_local_mainnet.py:334-334 | no two low bits share a place |
| EliasFano.AtLeastOrdinal | tools/swift_local_mainnet.py:319-324 | an index is at least its ordinal, so the cardinality error is never raised |
| EliasFano.PutLow | tools/swift_local_mainnet.py:332-334 | the low bits of one index are set, the others kept |
| EliasFano.PutHigh | tools/swift_local_mainnet.py:335-335 | the unary bit of one index is set, the others kept |
| EliasFano.Encode | tools/swift_local_mainnet.py:316-341 | exactly the sorted unique 32-bit lists are encoded, as sizes, low part and high part |
| EliasFanoBytes.LowWidth | tools/swift_local_mainnet.py:325-326 | the low width k is the one with n times 2^k at most maximum + 1 and n times 2^(k + 1) above it |
| EliasFanoBytes.EncodedBytes | tools/swift_local_mainnet.py:316-341 | an encoding is the count, the maximum, low bits in which bit t of index i is at place i k + t, and high bits whose ones are at index / 2^k plus ordinal, each part of the fewest bytes and zero elsewhere |
| EliasFano.OnesArePositions | tools/swift_local_mainnet.py:335-335 | the ones of the high part are exactly the unary positions in order |
| EliasFano.EncodingReadsBack | tools/swift_local_mainnet.py:316-341 | reading the low bits and the unary high bits back recovers the list |

## Left out

- Hook.ForksAgree: equal frames are stated for sessions that end undisabled, since a worker failure or another thread disables them and may turn exact entries into unknown ones.
- Engines.Engine.ProduceHintsBatch: asks for at most 8192 records, the size of the engine's arrays, which the code relies on without a test of its own.
- Jacobian.AddMixed: asks for an output apart from the input, because the code reads the input's y after writing the output's, and leaves the degenerate cases to its caller as the code does.
- Hook.Session.Emit: the trace is a list of keyed frames; the bytes of a key, a length and its hints in the file are not modelled.
- Worker processes, pipes, restarts, files, sockets, clocks, CPU accounting, and the hook's statistics other than `checks` and `false_checks`.
- The Capture and Pack modes' records; a transaction outside any group is a group of one.
- The parallel, replay and stream hooks as separate members: their group, flush and retry are the Baseline, Candidate and Stream modes of the modelled hook. `ecdsa_replay_hook.rs` and `ecdsa_replay.rs` repeat a whole run ordinarily when any batch fails, which is the plain replay of one large group; they would only add easier members.
- The randomness of coefficients and its rejection sampling: coefficient lists are parameters, all-ones included, and the at-most-one lemmas stand for the probability.
- The insides of libsecp256k1: point multiplication, decompression, multi-multiplication and DER parsing appear by what they compute; its sort appears as a sorted permutation; building digit lists and tables for the ladder is not modelled.
- The `& (cap - 1)` of the key table is the remainder by a capacity proved to be a power of two, and `|` of disjoint bits is an addition.
- Floating point: under rounding toward zero the fused multiply-add pair is the exact split of a product at 2^52. One of the four vector lanes is modelled.
- In the ladder field elements are integers modulo p, without the magnitude bookkeeping of the library's representation.
- `ezw2.c`, which states the same multiplication with split accumulators; `csa_mul.c`, which does not compute the product; the timing programs.
- Read errors of the advice file other than a short file, and the thread that waits for a block.
- Loading and parsing the fixture's blocks, amount compression, the hints file and spent-coin file, deliberately bad hints, and the network provider.
