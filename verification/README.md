# EigenCapital: verified models

Dafny models of the parts of EigenCapital whose promises are about whole runs, all schedules or exact
numbers, and proofs of those promises. `dafny verify dfyconfig.toml` checks everything.

Code that changes things step by step is a method, with the fields or arrays it changes, proved equal to a
function of the old state; the promises are lemmas about that function. Floating-point numbers are exact
reals, and not-a-number is a value of its own where the code can meet it. Clocks, prices, broker replies,
fetch results and square roots are inputs.

| file | models |
|---|---|
| `LiveCache.dfy`, `CachedErrors.dfy`, `FreshHits.dfy` | the live-source cache of the state bundle: pollers and pool workers, one lock section at a time, under every interleaving |
| `DecisionPipeline.dfy`, `CycleOutcome.dfy` | the ordered stages of one asset's decision cycle and the engine that lives across cycles |
| `TwoSampleKS.dfy`, `Atlas.dfy`, `AtlasVerdict.dfy` | the ATLAS change-point detector: the Kolmogorov-Smirnov merge, and the online recursions of each asset |
| `HrpAllocator.dfy`, `ClusterRisk.dfy`, `HedgedRings.dfy` | the hierarchical-risk-parity allocation: leaf order, then bisection of weights in place; what its weights mean for the returns; and returns for which it gives no numbers |
| `ValidityMachine.dfy` | the validity state machine: smoothing, hysteresis and a dwell lock |
| `RateLimiter.dfy` | the sliding-window rate limiter |
| `TripleBarrier.dfy`, `PurgedFolds.dfy` | triple-barrier labels in three forms, and the purged walk-forward folds |
| `Sizing.dfy` | the sizing guardrail chain and the rounding onto a broker's lot grid |
| `PublicationLags.dfy`, `DerivedFeatures.dfy` | publication lags and the macro features derived from the lagged series |
| `Dictionaries.dfy`, `ExpositionText.dfy`, `Metrics.dfy` | the metric registry and its text, against a parser written from the Prometheus text exposition format 0.0.4, "Text format details" |
| `Prelude.dfy` | an option type and three functions on reals |

## Where the code and its documentation differ

The models follow the code.

- Bar-jump suppression is documented to hold an asset flat for 60 minutes. In the default stage order the
  signal is resolved after it, so it changes nothing (`JumpTimerIsIgnored`).
- When the conviction gate blocks a flip, position management returns without clearing the signal, so the
  entry is still built and routed, over the position it was not allowed to close (`RoutesOnlyWhenFlatIff`,
  `SellAgainstLong`).
- "2-of-3 agreement before a flip" starts with the third signal: before that a single signal flips
  (`HysteresisBlocksIff`, `SellAgainstLong`).
- Deferred entries never fire. The poll asks the entry gate about an entry that is still queued, and the gate
  refuses every side that is queued (`DeferredEntriesNeverFire`).
- A constant series is claimed never to fire a transition (`tests/test_atlas_detector.py`). The first CUSUM
  term compares the first value with a mean of 0, so it is quiet exactly when its absolute value is at most
  twice the slack (`ConstantSeriesQuietIff`).
- The `is_fresh` field is rewritten in place, without the lock, in a dictionary that replies share. A poll
  with an earlier clock reading can stamp it last (`FreshExactlyWhenYoung`, `LateStampMisleads`). A cached
  error is documented as not fresh, but a stale reply stamps it fresh as well (`CachedErrorReadsFresh`,
  `ErrorReadsFreshOnlyWhenStamped`).
- Two halves with zero variance make a split 0/0, and weights that are not numbers. Twelve return series do
  that on every single-linkage tree, whatever its leaf ordering (`HedgedRingsAreBlind`).
- The folds documented as expanding never expand (`TrainingCollapses`), and a gap longer than the fold's
  start wraps around (`SeparatedIff`), up to a fold that trains on its own test window
  (`WrappedFoldTrainsOnItsTest`).
- Loop labels skip a row of zero volatility, the vectorised ones do not (`FormsAgreeIff`); and they compare
  first hits by index label, so an index that inverts a row's two first hits changes its label
  (`IndexLabelIff`, `InvertedIndexInvertsLabel`).
- Publication lags are documented in calendar days; the code shifts rows. The lag still holds in calendar
  days (`VisibleValueIsOldEnough`). Lagging alone can look ahead, through the test of the last value
  (`LaggedAgreesIff`, `LastValueIsSeenEarly`); the derived features cannot, nor can they when lagged once
  more (`NoLookAhead`, `NoLookAheadLagged`).
- The accepted quantity has a floor of 0.000001, which can exceed the risk cap (`QuantityWithinRiskCapIff`,
  `SmallestQuantityExceedsCap`), and the position cap (`QuantityWithinPositionCapIff`).
- Orders are documented never to submit more risk than was sized. Without symbol information the quantity is
  taken for lots, and the order is for 100000 times the quantity (`OrderWithinQuantityIff`,
  `UnknownSymbolOrder`).
- A maximum volume off the lot grid makes normalising non-idempotent (`NormalizeIdempotentIff`).
- A counter is documented as monotonic, but registering its name again as a gauge gives a handle that lowers
  it (`GaugeHandleLowersCounter`, `NeverFallsIff`).
- The rendered text is documented to be in the exposition format. Documentation texts are not escaped there,
  blanks around them are lost, label names are not checked, and the metric-name test accepts non-ASCII
  letters (`RenderReadsBackIff`, `TwoLineHelpMisreads`, `NameTestIsConventionInAscii`, `ForeignLetterPasses`).
- The RED entry threshold of the validity machine is never read.
- The rate limiter reads the clock before taking its lock, so readings can be late. Its bound is for readings
  in call order (`LateReadingOverfills`); for readings at most d late it holds for intervals shorter by d, and
  no longer ones (`NoIntervalOverfullWhenLate`, `LateBoundIsTight`).

## Model

| member | source | states |
|---|---|---|
| LiveCache.LiveSources.Look | paper_trading/api/bundle.py:125-133 | the first lock section and the freshness test are one step of the protocol; a reply is returned exactly on a fresh hit |
| LiveCache.LiveSources.SubmitOnce | paper_trading/api/bundle.py:136-139 | the second lock section is one step: a refresh is queued unless one is in flight |
| LiveCache.LiveSources.ReplyStale | paper_trading/api/bundle.py:142-160 | a poll without a fresh hit stamps the shared dictionary, or returns a placeholder |
| LiveCache.LiveSources.Store | paper_trading/api/bundle.py:82-102 | a worker caches a result or an error with a 5 s expiry |
| LiveCache.LiveSources.Release | paper_trading/api/bundle.py:103-105 | a worker clears the in-flight flag, whatever happened before |
| LiveCache.StepInv | paper_trading/api/bundle.py:70-160 | every step of every poller and worker keeps the protocol's invariant |
| LiveCache.SingleFlightAlways | paper_trading/api/bundle.py:79-81 | under every interleaving a source's flag is set exactly when one refresh is queued or running, and there are never two |
| LiveCache.FetchTimesNeverGoBack | paper_trading/api/bundle.py:82-105 | between any two moments of a run a cached fetch time never decreases and an entry is never dropped |
| LiveCache.MissLeavesRefreshOutstanding | paper_trading/api/bundle.py:135-139 | a poll that was no fresh hit leaves exactly one refresh outstanding, its own exactly when there was none |
| LiveCache.FreshReplyIsYoung | paper_trading/api/bundle.py:127-150 | a fresh hit is under 5 s old; a reply that reads fresh is under 10 s old at its poll's clock reading, unless a poll with an earlier reading stamped the same dictionary |
| LiveCache.FreshExactlyWhenYoung | paper_trading/api/bundle.py:142-150 | as long as no other poll stamps the dictionary, a reply reads fresh if and only if it is under 10 s old |
| LiveCache.LateStampMisleads | paper_trading/api/bundle.py:145-147 | a concrete run in which a 20 s old reply reads fresh |
| LiveCache.CachedErrorReadsFresh | paper_trading/api/bundle.py:92-102 | a concrete run in which a failed fetch, cached as not fresh, is replied as fresh |
| CachedErrors.ErrorReadsFreshOnlyWhenStamped | paper_trading/api/bundle.py:76-77 | over every run a replied dictionary that no poll has stamped reads fresh if and only if its fetch succeeded, and a cached error that reads fresh was stamped by a poll that found it under 10 s old |
| FreshHits.HitIff | paper_trading/api/bundle.py:125-133 | over every run a poll that looks replies with an entry as a hit if and only if the cache holds it and its clock reading is less than 5 s after the fetch |
| FreshHits.YoungHitQueuesNothing | paper_trading/api/bundle.py:127-139 | such a poll changes nothing but its own state, and never queues a refresh or stamps a document later |
| FreshHits.ReplyIsDecidedAtLook | paper_trading/api/bundle.py:125-160 | whatever happens before it replies, a poll replies with a hit on what the cache held when it looked if that was under 5 s old, with the same entry as a stale reply if it was older, and with a placeholder if there was none |
| FreshHits.StampsAreLate | paper_trading/api/bundle.py:142-150 | every poll that has stamped a document read the clock at least 5 s after the document's fetch |
| FreshHits.YoungReplyReadsAsCached | paper_trading/api/bundle.py:92-102 | so for 5 s after its fetch a reply is a hit and reads as it was cached: an error as not fresh |
| DecisionPipeline.AssetEngine.ApplyDecision | paper_trading/asset_engine.py:588-590 | a cycle counts itself, runs the pipeline and returns its result |
| DecisionPipeline.RunDecisionPipeline | paper_trading/execution/decision_pipeline.py:953-1018 | the loop over the default stages, with its early exit and block counters, computes the run of the stages |
| DecisionPipeline.RunAndCount | paper_trading/execution/decision_pipeline.py:979-989 | one turn of the loop: the stage, and one count against it exactly if it aborted the cycle or cleared the side |
| DecisionPipeline.ApplySellOnlyFilter | paper_trading/execution/decision_pipeline.py:677-699 | force-close of a long at a positive price, else suppression of BUY |
| DecisionPipeline.ApplySignalHysteresis | paper_trading/execution/decision_pipeline.py:163-183 | the chain of the last three signals and the block on a lone flip |
| DecisionPipeline.EvaluateConvictionGate | paper_trading/execution/decision_pipeline.py:215-222 | the flip gate is consulted only against a held opposite position |
| DecisionPipeline.ManagePositionStage | paper_trading/execution/decision_pipeline.py:294-381 | stacking or suppression on the same side, the entry gate, profit lock and flip; a blocked flip keeps its signal |
| DecisionPipeline.RouteExecutionPolicyStage | paper_trading/execution/decision_pipeline.py:450-494 | ENTER opens, DEFER with a plan queues, SKIP does nothing |
| DecisionPipeline.AssetEngine.PollPendingEntries | paper_trading/services/entry_service.py:885-1063 | queued entries wait, are dropped, or are to be entered and asked about at the entry gate while still queued; a queued long on a sell-only asset is dropped |
| DecisionPipeline.PollOnlyDrops | paper_trading/services/entry_service.py:1010-1033 | polling changes nothing but the queue, which keeps only entries that wait |
| DecisionPipeline.ResultIsSignalOrFlat | paper_trading/execution/decision_pipeline.py:1012-1018 | every cycle ends flat or with exactly the incoming signal, and is aborted exactly when it is the engine's first |
| DecisionPipeline.TurnSide | paper_trading/execution/decision_pipeline.py:927-950 | no stage after the signal is resolved sets the side: each keeps it or clears it |
| DecisionPipeline.JumpTimerIsIgnored | paper_trading/execution/decision_pipeline.py:525-542 | the bar-jump timer changes neither result, trades nor counters of any cycle |
| DecisionPipeline.JumpTimerIsIgnoredInRuns | paper_trading/execution/decision_pipeline.py:927-950 | two runs that differ only in the timer end in the same engine |
| DecisionPipeline.CountersBalance | paper_trading/execution/decision_pipeline.py:985-989 | over any run the block counters grow by exactly the aborted cycles plus the other cycles whose BUY or SELL ended flat |
| DecisionPipeline.SellOnlyTakesNoLong | paper_trading/execution/decision_pipeline.py:641-699 | over any run of a sell-only asset, from any start, no stage opens, stacks, queues or triggers a long, and it is long only if it was long all along |
| DecisionPipeline.SellOnlyEndsNotLong | paper_trading/execution/decision_pipeline.py:682-689 | from the second cycle on, a cycle with a positive close price and an accepted close ends not long, and so do all later ones |
| DecisionPipeline.RoutesOnlyWhenFlatIff | paper_trading/execution/decision_pipeline.py:352-381 | over any run an entry is routed over a held position exactly in the cycles where the conviction gate refused the flip, and then onto the other side; if the gate never refuses, only when flat |
| DecisionPipeline.DeferredEntriesNeverFire | paper_trading/services/entry_service.py:133-134 | no run ever enters a deferred entry |
| DecisionPipeline.HysteresisBlocksIff | paper_trading/execution/decision_pipeline.py:170-183 | an opposite signal is cleared exactly when two signals came before it and neither agrees |
| DecisionPipeline.FlipsNeedAgreement | paper_trading/execution/decision_pipeline.py:163-183 | over any run the chain is the last three signals, and every turn of a held position, by a flip, by routing over it or by a deferred entry, agrees with the last and, once there are three, with one of the two before |
| DecisionPipeline.OnlyTurnsTurn | paper_trading/execution/decision_pipeline.py:352-381 | a cycle that starts with one side held and ends with the other has logged such a turn, so nothing else turns a position |
| DecisionPipeline.SellAgainstLong | paper_trading/execution/decision_pipeline.py:380-381 | the exact trades of a SELL against a long: with the gate's consent close then open, without it an open with no close |
| CycleOutcome.CycleIs | paper_trading/execution/decision_pipeline.py:927-1018 | result, position, signal chain, log and queue at the end of any cycle, from conditions on its settings, its inputs and the engine it starts with; it ends with its signal if and only if that is let through |
| CycleOutcome.EventsExactly | paper_trading/execution/decision_pipeline.py:352-494 | the events a cycle logs, each if and only if its condition holds: an entry is routed exactly when the signal is let through, the policy is ENTER and the order is filled; queued exactly when it is let through, the policy is DEFER and there is a plan; a position is flipped exactly when the other side is held, conviction and entry gate consent, profit is not locked in and the close is accepted |
| CycleOutcome.CountersExactly | paper_trading/execution/decision_pipeline.py:985-989 | a cycle adds one to the counter of the stage that takes its signal out, and nothing to any other |
| CycleOutcome.ChainStaysShort | paper_trading/execution/decision_pipeline.py:163-169 | no run makes the signal chain longer than three, so the three results above hold for every cycle of every run |
| TwoSampleKS.TwoSampleStatistic | eigencapital/observability/atlas.py:179-202 | the two-pointer merge returns the supremum over all reals of the distance of the two empirical distributions |
| TwoSampleKS.KSIsTheSup | eigencapital/observability/atlas.py:183-183 | the statistic is that supremum and the only number that is |
| TwoSampleKS.KSInUnitInterval | eigencapital/observability/atlas.py:179-202 | it lies in [0, 1], also for empty samples |
| TwoSampleKS.KSSymmetric | eigencapital/observability/atlas.py:179-202 | it does not depend on the order of the samples |
| TwoSampleKS.KSZeroIffSameDistribution | eigencapital/observability/atlas.py:179-202 | it is zero exactly when every value has the same share of both samples |
| Atlas.AtlasDetector.Forget | eigencapital/observability/atlas.py:96-97 | a reset drops one asset's state and no other |
| Atlas.AtlasDetector.Feed | eigencapital/observability/atlas.py:107-177 | an update changes one asset's state by one observation and returns the verdict on it |
| Atlas.AssetState.UpdateMoments | eigencapital/observability/atlas.py:110-119 | the Welford step |
| Atlas.AssetState.UpdateCusum | eigencapital/observability/atlas.py:121-129 | the two CUSUM steps, and whether either exceeds the threshold |
| Atlas.AssetState.UpdatePageHinkley | eigencapital/observability/atlas.py:131-138 | the Page-Hinkley step |
| Atlas.AssetState.CompareAndSlide | eigencapital/observability/atlas.py:140-153 | the comparison of two full windows, then the slide |
| Atlas.StateIsBatchForm | eigencapital/observability/atlas.py:96-136 | over every run an asset's state is the batch form of its own values since its last reset: mean, squared deviations, largest and smallest suffix sums with slack, least prefix mean |
| Atlas.MeansRefined | eigencapital/observability/atlas.py:114-133 | the Welford and Page-Hinkley means are both the mean |
| Atlas.VarianceRefined | eigencapital/observability/atlas.py:117-119 | the running variance is the sum of squared deviations from the current mean |
| Atlas.CusumRefined | eigencapital/observability/atlas.py:124-128 | the CUSUM sides are the largest and the smallest suffix sum, the empty one included, of values minus previous mean and slack |
| Atlas.PhMinRefined | eigencapital/observability/atlas.py:134-134 | the Page-Hinkley minimum is the least prefix mean |
| Atlas.PageHinkleyFiresExactly | eigencapital/observability/atlas.py:131-138 | the layer fires if and only if the mean exceeds the least prefix mean by more than five deltas |
| AtlasVerdict.VerdictExactly | eigencapital/observability/atlas.py:107-177 | over every run a layer is in the verdict if and only if its condition on the asset's values holds: a suffix sum beyond the CUSUM threshold times the sample standard deviation plus the slack; a mean more than five deltas above that of a prefix; a distance of the two full blocks before the value above the threshold. The confidence is the number of these over 3 |
| Atlas.WindowsAreBlocks | eigencapital/observability/atlas.py:145-153 | the windows are the current block of the stream and the full block before it |
| Atlas.KsComparesFullBlocks | eigencapital/observability/atlas.py:140-144 | the test looks at update n if and only if n >= 2W + 1 and W divides n - 1, and compares the two blocks before the value |
| Atlas.ConstantSeriesFires | eigencapital/observability/atlas.py:112-129 | after m equal values c the next is reported as a transition if and only if the absolute value of c exceeds (m + 2) slacks |
| Atlas.ConstantSeriesQuietIff | tests/test_atlas_detector.py:38-47 | a constant series never fires if and only if its absolute value is at most two slacks |
| HrpAllocator.QuasiDiagonal | portfolio/hrp_allocator.py:30-43 | the merge loop returns the leaf order, a permutation of the leaves |
| HrpAllocator.LeafOrderIsPermutation | portfolio/hrp_allocator.py:30-43 | for every valid linkage the order is a permutation of 0..n-1 |
| HrpAllocator.OrderKeepsBranches | portfolio/hrp_allocator.py:36-43 | every merge stands in the order as one stretch: the leaves its left cluster holds, then those of its right cluster |
| HrpAllocator.Bisect | portfolio/hrp_allocator.py:60-75 | bisection in place multiplies each leaf of the cluster by its share and touches no other |
| HrpAllocator.HrpWeights | portfolio/hrp_allocator.py:52-78 | at every split whose weights are numbers and whose variances are not negative, the weight of the left half times its variance is that of the right half times its variance; unless a split meets two zero variances the weights are non-negative, sum to exactly 1 and are unchanged by the final division; a weight is not a number if and only if a split does |
| HrpAllocator.SharesSumToOne | portfolio/hrp_allocator.py:60-75 | whatever the split factors, a cluster's shares sum to exactly 1 |
| HrpAllocator.SharesIgnoreScale | portfolio/hrp_allocator.py:46-69 | scaling the covariance by c > 0 changes no share |
| ClusterRisk.VarianceIsMeanSquare | portfolio/hrp_allocator.py:46-49 | for a covariance of products of return series, up to a factor, the variance of a cluster is up to the same factor the sum of squares of its equally weighted average return |
| ClusterRisk.ClusterVarianceIsVariance | portfolio/hrp_allocator.py:46-82 | for the sample covariance of any returns it is the sample variance of that average return, and never negative |
| ClusterRisk.RiskParityOfReturns | portfolio/hrp_allocator.py:60-75 | so the halves of every split hold weights in inverse proportion to the sample variances of their average returns |
| ClusterRisk.OnlyRiskParity | portfolio/hrp_allocator.py:60-78 | weights with that balance at every split are determined by their total |
| HedgedRings.HedgedRingsAreBlind | portfolio/hrp_allocator.py:46-69 | for two independent rings of six assets, every single-linkage tree with any leaf ordering makes the first split 0/0, so that weights are not numbers |
| HedgedRings.RingsMeetLast | portfolio/hrp_allocator.py:90-94 | every such tree joins each ring completely before it joins the two |
| HedgedRings.RingTreeIsSingleLinkage | portfolio/hrp_allocator.py:90-94 | such trees exist |
| HedgedRings.RingsAreACovariance | portfolio/hrp_allocator.py:81-91 | that covariance is, up to a factor, the one of twelve return series over six days, each with mean zero |
| ValidityMachine.ValidityStateMachine.Transit | monitoring/validity_state_machine.py:162-222 | one observation: smoothing, proposal, lock, log and output |
| ValidityMachine.ValidityStateMachine.CheckRegimePersistenceLock | monitoring/validity_state_machine.py:97-123 | the dwell and volatility lock |
| ValidityMachine.ValidityStateMachine.ProcessTimeline | monitoring/validity_state_machine.py:224-251 | a timeline is a reset and one observation a row, each seeing the scores up to its own |
| ValidityMachine.ValidityStateMachine.Reset | monitoring/validity_state_machine.py:253-259 | back to YELLOW with an empty log |
| ValidityMachine.GreenAndStaysGreen | monitoring/validity_state_machine.py:83-222 | with scores at or above some v above green entry and k scores enough for the smoothed one, the machine is GREEN after max(k, 1) + lock_periods observations and stays GREEN |
| ValidityMachine.RedAndStaysRed | monitoring/validity_state_machine.py:83-222 | with scores at or below some v under the four thresholds on the way to RED and k scores enough for the smoothed one, the machine is RED after max(k, 1) + lock_periods observations and stays RED |
| ValidityMachine.SmoothedReaches | monitoring/validity_state_machine.py:83-95 | the smoothed score is at least v - beta^k (v - start) after k such scores |
| ValidityMachine.SmoothedFalls | monitoring/validity_state_machine.py:83-95 | the smoothed score is at most v - beta^k (v - start) after k scores of at most v |
| ValidityMachine.ChangesAreFarApart | monitoring/validity_state_machine.py:109-115 | any two state changes are at least lock_periods + 1 observations apart |
| ValidityMachine.ChangesAreFew | monitoring/validity_state_machine.py:109-115 | N observations cause at most floor(N / (lock_periods + 1)) changes |
| ValidityMachine.LogIsChained | monitoring/validity_state_machine.py:193-203 | the log is an unbroken chain from YELLOW to the current state, and the smoothed score of each entry is in the band of its pair of states |
| ValidityMachine.ChangesIff | monitoring/validity_state_machine.py:125-222 | over every run an observation changes the state to another one if and only if its smoothed score is in that band, the state has not changed for lock_periods observations and the recent scores are not volatile; it is locked if and only if some band is met and one of the others fails |
| ValidityMachine.VolatileIff | monitoring/validity_state_machine.py:117-121 | the last w scores are volatile if and only if the squared distances of their ordered pairs exceed 0.045 w (w - 1) in all |
| ValidityMachine.TimelineIsRun | monitoring/validity_state_machine.py:224-251 | row i of a timeline is the output of observation i of the run from a reset, so these results hold for it |
| ValidityMachine.ReturnToGreenNeedsSwing | monitoring/validity_state_machine.py:125-160 | returning to GREEN after leaving it takes a smoothed swing of more than green entry minus green exit |
| ValidityMachine.TimelineOfPrefix | monitoring/validity_state_machine.py:238-251 | the output on a prefix of a timeline is a prefix of its output |
| RateLimiter.Limiter.IsAllowed | paper_trading/api/common.py:209-220 | the pruned window decides, and records an accepted request |
| RateLimiter.Limiter.RemainingFor | paper_trading/api/common.py:222-230 | the remainder of the pruned window, for known and unknown clients |
| RateLimiter.RefusedExactlyWhenFull | paper_trading/api/common.py:209-220 | over every call sequence with a nondecreasing clock a request is refused if and only if the last window holds the maximum of accepted ones |
| RateLimiter.NoIntervalOverfull | paper_trading/api/common.py:196-201 | no closed interval of the window's length holds more than the maximum of accepted requests |
| RateLimiter.NoIntervalOverfullWhenLate | paper_trading/api/common.py:209-220 | if no reading of a client is more than d behind an earlier one, no closed interval of the window's length less d holds more than the maximum |
| RateLimiter.LateBoundIsTight | paper_trading/api/common.py:211-220 | for every window, lateness up to it and excess, a run in which an interval longer by the excess holds more |
| RateLimiter.RemainingAgrees | paper_trading/api/common.py:222-230 | the remainder is what the last window leaves free, and positive if and only if a request at the same time is accepted |
| RateLimiter.ClientsAreIndependent | paper_trading/api/common.py:197-200 | a client's window and accepted requests are those of its own calls alone |
| RateLimiter.LateReadingOverfills | paper_trading/api/common.py:211-213 | clock readings out of order break the bound |
| TripleBarrier.ApplyTripleBarrier | labels/triple_barrier.py:43-94 | the vectorised labels are the first touches, 0 on the last V rows |
| TripleBarrier.HitsDecideLabel | labels/triple_barrier.py:72-89 | comparing the argmax hits, with V for none, decides which barrier is touched strictly first |
| TripleBarrier.FirstTouchInReturns | labels/triple_barrier.py:62-89 | for a positive price the label is 1 if and only if a return of at least tp volatilities comes before one of at most -sl volatilities, -1 if and only if it is the other way round, else 0 |
| TripleBarrier.LoopLabels | labels/compat.py:33-62 | the row loop, for any index, compares the first hits by index label; on an increasing index its labels are the first touches of the rows it does not skip |
| TripleBarrier.IndexLabelIff | labels/compat.py:57-60 | a row that is not skipped gets its first-touch label if and only if the index orders its two first hits as the rows are ordered |
| TripleBarrier.InvertedIndexInvertsLabel | labels/compat.py:57-60 | three rows whose index turns a label of 1 into -1 |
| TripleBarrier.FormsAgreeIff | labels/compat.py:44-60 | on the same volatility the two forms label a row alike if and only if the volatility is positive or missing, the lookahead window is not full, or the next close lies between the row's barriers; for a volatility of 0, equals this close |
| TripleBarrier.ZeroVolatilityDiffers | labels/compat.py:47-48 | with volatility 0 they differ |
| TripleBarrier.TrendAdjustedMultiples | labels/trend_adjusted_labels.py:74-88 | the masked assignments give each row its multiples |
| TripleBarrier.TrendAdjustedLabels | labels/trend_adjusted_labels.py:103-159 | the adjusted labels are the first touches under each row's own multiples, all 0 below V + 5 rows |
| TripleBarrier.TrendLabelInReturns | labels/trend_adjusted_labels.py:74-159 | the same for the adjusted labels, with tp narrowed and sl widened in an uptrend and the other way round in a downtrend |
| TripleBarrier.LabelMonotone | labels/triple_barrier.py:84-89 | lowering both barriers can only raise a label |
| TripleBarrier.TrendMovesLabelItsWay | labels/trend_adjusted_labels.py:78-86 | an uptrend can only raise a label, a downtrend only lower it, and no trend changes none |
| PurgedFolds.Split | labels/compat.py:109-140 | the generator's folds, in order |
| PurgedFolds.PurgeLoop | labels/compat.py:120-128 | the repeated filtering of the training indices |
| PurgedFolds.PurgedClosedForm | labels/compat.py:122-128 | the loop removes one contiguous stretch, from the first test window on |
| PurgedFolds.TrainingCollapses | labels/compat.py:117-128 | for a gap of at most the fold size, fold 1 trains on [0, fold - gap) and every later one on [0, fold) |
| PurgedFolds.TrainingExactly | labels/compat.py:117-133 | for such a gap either window type trains on the last indices of the first block, no more than the lookback |
| PurgedFolds.YieldedExactly | labels/compat.py:136-140 | the yielded folds are exactly those with enough training indices, the i-th testing on the i-th block after the first |
| PurgedFolds.FoldSizeIsGreatest | labels/compat.py:111-111 | the fold size is the greatest for which one training block and all test windows fit |
| PurgedFolds.TestWindowInRange | labels/compat.py:113-115 | test windows have the fold size, lie in the data and are adjacent |
| PurgedFolds.YieldedFoldsAreSeparated | labels/compat.py:65-69 | every yielded training index plus the gap is below every test index of its fold |
| PurgedFolds.SeparatedIff | labels/compat.py:117-133 | for any gap and either window type a fold is so separated if and only if the gap fits before it or the wrapped slice is empty |
| PurgedFolds.WrappedFoldTrainsOnItsTest | labels/compat.py:117-120 | a fold with a wrapped gap that is yielded and trains on its whole test window |
| Sizing.Compute | shared/sizing_chain.py:88-173 | the guardrail chain step by step |
| Sizing.AcceptedIsWithinCaps | shared/sizing_chain.py:118-154 | an accepted notional is within the position cap and its stop loss within the risk cap |
| Sizing.NotionalIsGreatest | shared/sizing_chain.py:96-154 | the notional is the greatest that is no more than was asked for and within both caps; the trade is skipped if and only if the risk cap binds and that greatest notional is below the smallest viable one |
| Sizing.TaperIs | shared/sizing_chain.py:75-86 | for a smallest size of at most 1 the taper is 1 from its start on, the smallest size up to its end, and a straight line in between |
| Sizing.TaperMonotone | shared/sizing_chain.py:75-86 | it never falls as the drawdown recovers and stays between the smallest size and 1 |
| Sizing.UncappedNotional | shared/sizing_chain.py:100-116 | where no cap binds the notional is the untapered one times the taper, between taper_min times and once it, or the equity times the size scalar |
| Sizing.NotionalMonotoneInDrawdown | shared/sizing_chain.py:88-154 | for a Kelly multiplier that is not negative, and whichever caps bind, a deeper drawdown never gives a larger accepted notional |
| Sizing.QuantityWithinRiskCapIff | shared/sizing_chain.py:132-157 | an accepted quantity's stop loss is within the risk cap if and only if that of the smallest quantity is |
| Sizing.SmallestQuantityExceedsCap | shared/sizing_chain.py:157-157 | an accepted input with default settings whose quantity exceeds the risk cap |
| Sizing.QuantityWithinPositionCapIff | shared/sizing_chain.py:118-157 | what an accepted quantity costs is within the position cap if and only if what the smallest quantity costs is |
| Sizing.SizeScales | shared/sizing_chain.py:88-156 | equity scaled by k > 0 gives the same decision and k times the notional |
| Sizing.NormalIsGreatest | paper_trading/execution/mt5_broker.py:556-580 | for a known symbol with the maximum on the grid, normalising picks the greatest tradable volume not above the lots asked for, or 0 |
| Sizing.NormalizeIdempotentIff | paper_trading/execution/mt5_broker.py:542-591 | normalising is idempotent if and only if the symbol is unknown or its maximum volume is on the grid |
| Sizing.OffGridMaximum | paper_trading/execution/mt5_broker.py:580-580 | an order cut to a maximum off the grid is cut again by a second normalisation |
| Sizing.NormalizeMonotone | paper_trading/execution/mt5_broker.py:542-591 | normalising is monotone, for a known or an unknown symbol |
| Sizing.OrderNeverExceedsQuantity | paper_trading/execution/mt5_broker.py:593-610 | for a known symbol, normalising, rounding to lots and converting back never exceeds the quantity |
| Sizing.UnknownSymbolOrder | paper_trading/execution/mt5_broker.py:540-611 | for an unknown symbol the three together give 100000 times the quantity |
| Sizing.OrderWithinQuantityIff | paper_trading/execution/mt5_broker.py:540-611 | the three together stay within the quantity if and only if the symbol is known or the quantity is 0 |
| PublicationLags.LagColumns | features/publication_lags.py:69-80 | the column loop gives every column its lagged form, or fails on an empty one |
| PublicationLags.ApplyPublicationLags | features/publication_lags.py:61-80 | on a frame with rows it lags every column by the given table, or by the default one if that is missing or empty, and keeps the dates |
| PublicationLags.ApplyLagToMacroDerived | features/builder.py:160-161 | the derived frame, lagged once more by the derived lags |
| PublicationLags.LaggedRow | features/publication_lags.py:74-78 | a column with a present last value shows at row t its most recent value at or before row t - lag |
| PublicationLags.LaggedAgreesIff | features/publication_lags.py:74-78 | two columns with the same rows up to t have the same lagged rows up to t if and only if their last values are both present or both missing, or there is no hole to fill |
| PublicationLags.LastValueIsSeenEarly | features/publication_lags.py:74-78 | two columns with the same rows up to t whose lagged rows differ at t |
| PublicationLags.ComputeMacroDerived | features/builder.py:29-50 | the assigned columns are the derived features, in assignment order, without the first 90 days; a missing raw column is an error |
| PublicationLags.DailyRow | features/builder.py:32-33 | on each day a column shows its most recent value at or before the lag-th row before the latest row |
| PublicationLags.VisibleValueIsOldEnough | features/publication_lags.py:9-11 | a value visible on day d was observed on or before day d - lag |
| PublicationLags.NoLookAhead | features/builder.py:29-50 | two raw frames with the same rows up to row t have the same derived rows up to its date, whatever follows |
| PublicationLags.NoLookAheadLagged | features/publication_lags.py:83-99 | the same holds for the derived features lagged once more, from the first day that is kept |
| DerivedFeatures.FeaturesOn | features/builder.py:34-49 | what each of the fifteen derived features shows on a day, in the raw daily columns of that day and of 5, 21 or 63 days before |
| DerivedFeatures.RawOnIs | features/publication_lags.py:12-35 | on a day a raw input shows its most recent value at or before 0, 1 or 30 rows before the latest row |
| DerivedFeatures.FinalFeatureOn | features/publication_lags.py:39-99 | row t of the final frame is day 90 + t of the derived one, held back by the feature's own 0, 1 or 30 days, with nothing filled in |
| ExpositionText.QuotedIff | eigencapital/observability/metrics.py:165-167 | a text reads as label value v and a rest if and only if it is v escaped, a quote and that rest: escaping is exact and injective |
| ExpositionText.EscapeStep | eigencapital/observability/metrics.py:165-167 | the three replacement passes escape every character exactly once |
| ExpositionText.LabelsRead | eigencapital/observability/metrics.py:152-153 | a printed label list whose names are the format's reads back as itself |
| ExpositionText.TextReadsIff | eigencapital/observability/metrics.py:137-156 | a printed text reads back as its lines if and only if metric and label names are the format's and documentation texts have no backslash, line feed or outer blank |
| Metrics.MetricsRegistry.AddMetric | eigencapital/observability/metrics.py:85-99 | registering checks the name and keeps what a name was first registered as |
| Metrics.MetricsRegistry.SetValue | eigencapital/observability/metrics.py:105-114 | setting replaces one sample, or fails without a change |
| Metrics.MetricsRegistry.Increase | eigencapital/observability/metrics.py:116-130 | adding changes one sample or creates it, or fails without a change |
| Metrics.MetricsRegistry.CounterInc | eigencapital/observability/metrics.py:187-190 | a counter handle refuses negative amounts |
| Metrics.MetricsRegistry.Reset | eigencapital/observability/metrics.py:158-162 | every metric loses its samples and nothing else |
| Metrics.MetricsRegistry.Render | eigencapital/observability/metrics.py:137-156 | the rendered text is the printed lines of the sorted metrics and samples |
| Metrics.ApplyKeepsValid | eigencapital/observability/metrics.py:85-135 | every call keeps one sample a label set, under declared label names |
| Metrics.OneSampleChanges | eigencapital/observability/metrics.py:105-130 | a successful set or addition changes exactly the sample of its labels, and no other of any metric |
| Metrics.FirstRegistrationStays | eigencapital/observability/metrics.py:85-99 | over any run a name keeps the kind, help text and label names of its first valid registration, and has none before it |
| Metrics.GoesThroughIff | eigencapital/observability/metrics.py:105-135 | after any run a set or an addition goes through if and only if its name has been registered and its first registration has declared every label given, and fails for the first of these that does not hold |
| Metrics.SameSampleIff | eigencapital/observability/metrics.py:111-111 | two calls address the same sample if and only if they give the same labels, in whatever order |
| Metrics.FallsIff | eigencapital/observability/metrics.py:105-130 | a call keeps a sample from falling if and only if it is not a clear, a set to less or an addition of a negative amount that goes through to that sample |
| Metrics.NeverFallsIff | eigencapital/observability/metrics.py:63-63 | over any run a sample never falls from any moment to any later one if and only if no call lowers it as it stands |
| Metrics.CounterNeverFalls | eigencapital/observability/metrics.py:187-190 | so a counter whose calls all come from counter handles never falls |
| Metrics.GaugeHandleLowersCounter | eigencapital/observability/metrics.py:93-99 | a name registered again as a gauge lowers the counter |
| Metrics.NameTestIsConventionInAscii | eigencapital/observability/metrics.py:170-177 | the name test is the documented convention on ASCII names, and only there |
| Metrics.ForeignLetterPasses | eigencapital/observability/metrics.py:170-177 | any letter outside ASCII passes as a metric name |
| Metrics.RenderedReadings | eigencapital/observability/metrics.py:137-156 | the readings rendered are exactly the samples held, or a bare 0 for a metric without samples |
| Metrics.RenderReadsBackIff | eigencapital/observability/metrics.py:137-167 | the rendered text reads back as exactly those readings if and only if metric names and label names in use are the format's and documentation texts have no backslash, line feed or outer blank, whatever the label values are |
| Metrics.TwoLineHelpMisreads | eigencapital/observability/metrics.py:145-145 | a documentation text of two lines is accepted, and the rendered text does not read back |
| Metrics.RenderDependsOnReadings | eigencapital/observability/metrics.py:142-150 | two registries with the same readings render the same text, however they came about |

## Left out

- Network, file, database, broker-bridge, HTTP and dashboard code: input and output only.
- Model training, the linkage and leaf-ordering algorithms, position sizing tables and order bookkeeping: library behaviour, or easy members.
- Floating-point rounding, overflow and the rounding of reported values: numbers are exact reals.
- Live cache: the pool's width of two is not modelled, so its runs include schedules with more workers; the contents of a fetched dictionary other than its freshness are left out; each fetch returns a new dictionary.
- Decision pipeline: stacking approval, profit, policy decisions, fills, closes and what becomes of a deferred entry before the entry gate are inputs of the cycle; prediction metadata, regime counter, probability history, position protection, gate traces, the replay log and exceptions inside a stage are not modelled, as no property here depends on them. Between cycles the position may be closed by others but not opened.
- ATLAS: the per-layer numbers reported beside a verdict are left out; the lookback setting is never read by the code; the square root is a parameter.
- Hierarchical risk parity: covariance entries are numbers, and a negative sum of variances is treated by the arithmetic alone.
- Validity machine: exposures and reason texts, which are functions of the state and the lock; the standard deviation test is on exact variances.
- Rate limiter: calls are one at a time; the lock itself is not modelled.
- Triple barrier: volatility, slope and trend strength are inputs; a vertical barrier of 0, at which the code raises, is excluded.
- Sizing: symbol lookups and log events; the unbounded cap for an equity that is not positive is an absent cap, and an infinite risk percentage is any one large enough.
- Publication lags: frames have at least one row and increasing dates; time zones are left out.
- Metrics: rendering reads sample lists outside the lock, the model renders at one moment; a value's text is a parameter; the parser holds printed text to the format's rules for names, escapes and outer blanks, but does not read the optional blanks, timestamps and comments that are never printed.
- `BackgroundWriter`, divergence features, path checks and authentication are not part of this model.
