# A verified model of the ingestion and runtime-control core

This project models the data-ingestion and runtime-control code of an MT5 trading platform in Dafny
and proves what that code keeps over every run, every interleaving and every input. `dafny verify
dfyconfig.toml` checks all of it.

Times are integers (seconds) or reals (minutes, monotonic clocks); prices, volumes, indicator values
and confidences are reals. The broker, the database, the session gate, the trading module and the
calendar provider are nondeterministic inputs: parameters of the steps or function arguments that
range over all answers. Objects that the source mutates are classes whose methods are proved equal
to specification functions; the theorems are about those functions and about step systems built
from them.

| file | component | what is proved |
|---|---|---|
| `Ingestion.dfy`, `IngestionTurns.dfy` | live and backfill threads over one high-water mark | monotone mark, ordered announcements, joint coverage in every interleaving, termination and fetch bound of backfill, refinement of the turns to protocol steps |
| `Circuit.dfy` | breaker over the worker pool | pool bound, monotone deadline, exact admission condition |
| `Scheduling.dfy` | round-robin window, exponential backoff | exact fairness, failure accounting over whole histories |
| `BarCache.dfy` | trimmed, indicator-merging cache | agreement with an unbounded map after any calls |
| `Synthesis.dfy`, `LiveSynthesis.dfy` | parent bars from child bars | partition, round trip, volume conservation, two-level equals one-level, live equals offline |
| `Lifecycle.dfy`, `ModeMachine.dfy` | component registry, runtime modes | outcomes under any failure pattern, stretches, guarded entry, cause of restores |
| `Decay.dfy` | economic decay behind a TTL cache | staleness bound and the exact conditions for it |
| `Supervisor.dfy` | process supervisor | one tracked process per instance in every reachable state |
| `Calendar.dfy`, `CalendarSync.dfy` | event lifecycle, snapshot history, event table | write-once times, history explains the store, one row per event |
| `ConfigLayers.dfy` | layered INI configuration | reported source agrees with the merged value |
| `Runs.dfy` | sequences of enabled steps | composition and splitting of paths, shared by ingestion and supervisor |
| `Common.dfy` | shared records and arithmetic | |

## Where the code does less than its documentation or intent

Each item names a lemma with a failing input and a lemma with the exact condition.

- The decay query reads `event_time` (`src/calendar/economic_decay.py:200`), but both calendar providers
  return events that have `scheduled_at` and no such attribute (`src/calendar/service.py:431-457`,
  `src/calendar/read_only_provider.py:153-177`, `src/clients/economic_calendar.py:171`). For such events
  the decay is 1 at every time, even at the instant at which the hard filter reports them as blocking
  (`CalendarEventsNeverDecay`). A query reacts to a list at some time if and only if some event of the
  list has the attribute (`QueryReactsIff`).
- A bound on the slope of the decay exists if and only if both ramps have a positive span
  (`LipschitzNeedsSpans`). The shipped settings (30/30/120/15 minutes) give the post-event side a zero
  span, so they have no bound (`ShippedSettingsHaveNoSlope`). Short moves obey the bound exactly unless
  they cross such a jump (`ShortMovesAreCloseIff`, for the shipped settings `ShippedSettingsJumpOnce`).
- With two ramps, the bound holds for every event list if and only if the windows before and after an
  event are equal, because the query looks at the nearest event, not at the lowest decay
  (`LipschitzIffSymmetric`, `UnequalWindowsBreakBound`).
- A hard block implies decay 0 if and only if the longer block meets no ramp on the other side
  (`BlockMeansZeroIff`, `BlockWithoutZeroDecay`).
- Live synthesis filters the cached bars by `>= parent open` only. It equals the offline group if and
  only if no bar beyond the parent is stored (`LiveEqualsIndexedGroup`, `LiveReadCanMixParents`).
- `s[-keep_limit:]` keeps the newest `keep_limit` bars for all call lists if and only if the limit is
  positive; a zero limit keeps everything (`TrimmingNeedsPositiveLimit`, `ZeroLimitKeepsBars`).
- The automatic flag is cleared before the guard of a session-start restore may reject. The restore
  then never happens in that session (`SessionStartRestoresIff`, `RestoreCanBeLost`).
- The topology reader (`src/config/topology.py:53-67`) accepts a worker listed twice. Every live
  process is tracked in every run if and only if no instance is listed twice (`TrackedIffDistinct`,
  `RepeatedWorkerLeaks`).
- The docstring of the config loader (`src/config/utils.py:164-172`) puts both shared files before both
  instance files; the code (`src/config/utils.py:185-214`) does not. The model follows the code and
  states exactly when the two orders give the same value (`DocumentedOrderAgreesIff`,
  `DocumentedOrderCanDiffer`).
- A batch that reports one event twice keeps the snapshot history in step with the store if and only if
  its reports of one event agree on values, schedule, metadata and status (`BatchKeepsHistoryIff`,
  `DuplicateBreaksHistory`). The job's deduplication always hands over such a batch
  (`JobKeepsLatestReport`).

## Model

| member | source | states |
|---|---|---|
| `Synthesis.TimeframeSeconds` | src/utils/common.py:24-36 | every timeframe name in any case, unknown ones included, gives at least a minute, so alignment never divides by zero |
| `Synthesis.TimeframesLastAsNamed` | src/utils/common.py:24-36 | each supported name, in either case, lasts as many minutes, hours, days or weeks as it says |
| `Synthesis.ReadWindow` | src/ingestion/ingestor.py:513 | two more than the whole trigger periods that fit the parent |
| `Synthesis.AlignTime` | src/market/synthesis.py:47-62 | the parent opening is a multiple of the parent length and the time lies in [opening, opening + length) |
| `Synthesis.AlignUnique` | src/market/synthesis.py:47-62 | that opening is the only aligned one whose interval holds the time |
| `Synthesis.AlignComposes` | src/market/synthesis.py:47-62 | aligning to a middle timeframe that divides the parent first does not change the parent |
| `Synthesis.SupportedTimeframesNest` | src/utils/common.py:24-36 | of any two timeframes the shorter divides the longer, so the two-level theorem applies to all of them |
| `Synthesis.SynthesizeParentBar` | src/market/synthesis.py:16-44 | an empty group is the only error; the bar opens with the first child, closes with the last, its extremes are reached by a child and exceeded by none, its volume is the children's sum |
| `Synthesis.BuildChildBarIndex` | src/market/synthesis.py:65-82 | the grouping loop yields exactly the filtered group of every parent, keys in first-mention order |
| `Synthesis.GroupMembers` | src/market/synthesis.py:65-82 | a bar is in a group exactly if it is in the input and aligns to the key, then key <= time < key + length; order is kept |
| `Synthesis.GroupsPartition` | src/market/synthesis.py:65-82 | for input in any order, the groups together hold every bar exactly once |
| `Synthesis.GroupsRoundTrip` | src/market/synthesis.py:65-82 | for ascending input the groups, concatenated in key order, are the input |
| `Synthesis.KeysAscend` | src/market/synthesis.py:65-82 | for ascending input the keys ascend strictly and only the last group is still open |
| `Synthesis.SynthesisConservesVolume` | src/market/synthesis.py:35-82 | the synthesized bars of all parents carry exactly the volume of all children, in any input order |
| `Synthesis.TwoLevelSynthesis` | src/market/synthesis.py:16-82 | synthesizing a parent from synthesized middle bars gives the very bar that the raw children give |
| `Synthesis.WindowLosesNothing` | src/ingestion/ingestor.py:513-518 | the newest parent//trigger + 2 bars contain every bar of the parent when none lies beyond it |
| `Synthesis.LiveEqualsIndexedGroup` | src/ingestion/ingestor.py:503-531 | the live read equals the indexed group if and only if no stored bar lies beyond the parent |
| `Synthesis.LiveReadCanMixParents` | src/ingestion/ingestor.py:513-520 | a concrete store on which the live read mixes two parents |
| `Synthesis.LiveBarEqualsIndexedBar` | src/ingestion/ingestor.py:503-531 | when the store ends at the triggering bar, the live and the offline parent bar are equal |
| `LiveSynthesis.CacheReadIsHistoryRead` | src/ingestion/ingestor.py:513-518 | a cache that keeps the read window gives the live path what the full history would, after any calls |
| `LiveSynthesis.HistoryIsSpaced` | src/market/service.py:488-512 | bars written at multiples of the trigger timeframe form a history whose bars lie at least that far apart |
| `LiveSynthesis.LiveBarEqualsOfflineBar` | src/market/synthesis.py:3-4 | live and offline semantics agree end to end, through the trimmed cache, after any aligned writes and any updates |
| `BarCache.MarketDataService.SetOhlcClosed` | src/market/service.py:488-512 | the merge loop equals one write of the model, which leaves under each time the quote of its last bar; other keys untouched |
| `BarCache.MarketDataService.UpdateOhlcIndicators` | src/market/service.py:626-654 | the reverse scan and name-by-name merge equal one update of the model; other keys untouched |
| `BarCache.MarketDataService.MergeNames` | src/market/service.py:642-651 | nested dictionaries are merged, other payloads replaced, for any visiting order |
| `BarCache.WriteWinsByName` | src/market/service.py:496-507 | a write takes the new prices; by name new indicators win, held ones fill in, no other name appears |
| `BarCache.UpdateWinsByEntry` | src/market/service.py:641-654 | an update touches no price; unmentioned names and unmentioned entries of nested dictionaries survive, mentioned ones take the new value |
| `BarCache.TrimmedIsNewestOfUnbounded` | src/market/service.py:488-512 | after any writes and updates the cache is the newest keep entries of the same calls on an unbounded map, bars and indicators included |
| `BarCache.HeldBarShowsLastWritten` | src/market/service.py:494-512 | after any calls every held bar shows open, high, low, close and volume of the bar written last for its time, whatever updates followed |
| `BarCache.HeldBarShowsLatestPayload` | src/market/service.py:498-507 | after any calls every held bar has, name by name, exactly the payload that the writes and updates amount to, told call by call |
| `BarCache.LatestScalarShows` | src/market/service.py:642-651 | a scalar indicator shows the latest write or update that named it |
| `BarCache.TailSlice` | src/market/service.py:512 | for every limit the slice is the end of the list, of the length Python gives it |
| `BarCache.MarketDataService.KeepLimit` | src/market/service.py:509-511 | the larger of the two configured limits |
| `BarCache.TrimmingNeedsPositiveLimit` | src/market/service.py:509-512 | that holds for every call list if and only if the limit is at least one |
| `BarCache.ZeroLimitKeepsBars` | src/market/service.py:509-512 | a concrete write after which a limit of zero keeps a bar |
| `BarCache.HeldIsTop` | src/market/service.py:488-512 | a time is held exactly if it was written and fewer than keep written times are newer |
| `BarCache.RetainedBarKeepsNames` | src/market/service.py:488-512 | no indicator name of a retained bar is ever lost |
| `BarCache.EvictedNeverReturns` | src/market/service.py:508-512 | a bar pushed out by newer ones is never held again, even when re-sent |
| `Ingestion.NewerMark` | src/ingestion/ingestor.py:988-993 | the write to the mark never lowers it and takes no third value |
| `Ingestion.ClosedFacts` | src/ingestion/ingestor.py:434-450 | the closed batch holds exactly the answered bars up to the cutoff, in order |
| `Ingestion.MarkNeverDecreases` | src/ingestion/ingestor.py:983-993 | over any interleaving and any answers the mark never decreases |
| `Ingestion.LiveAnnouncementsIncrease` | src/ingestion/ingestor.py:385-474 | the live thread's announcements increase strictly over the whole run, however bars are re-sent and backfill interleaves |
| `Ingestion.EveryBarUpToMarkIsDelivered` | src/ingestion/ingestor.py:385-486 | with gapless answers, in every interleaving, each broker bar from the starting point to the mark was cached and announced by one of the threads |
| `Ingestion.BackfillStaysBelowCutoff` | src/ingestion/ingestor.py:1009-1071 | for arbitrary answers progress never moves back or past the cutoff, nothing beyond the cutoff is announced, the mark covers the progress |
| `Ingestion.BackfillFetchBound` | src/ingestion/ingestor.py:1009-1071 | when answers honour their start, at most floor((cutoff - progress)/tf) + 1 fetches are made |
| `Ingestion.BackfillLeavesNoGap` | src/ingestion/ingestor.py:1009-1071 | with gapless answers every broker bar between the start and the final progress is announced |
| `Ingestion.BackgroundIngestor.SetLastOhlcTimeIfNewer` | src/ingestion/ingestor.py:988-993 | one key's mark is advanced or kept, other keys untouched |
| `Ingestion.BackgroundIngestor.InitBackfillProgress` | src/ingestion/ingestor.py:955-981 | a stored bar is adopted exactly if the gap fits one fetch window; then mark, progress and cutoff are set |
| `Ingestion.BackgroundIngestor.IngestBatch` | src/ingestion/ingestor.py:434-474 | the classification loop and commit: closed bars cached, new closes announced, mark advanced to the newest closed bar, other keys untouched |
| `Ingestion.BackgroundIngestor.BackfillKey` | src/ingestion/ingestor.py:1001-1071 | a key without progress or cutoff is skipped; otherwise the loop terminates for every broker and equals the loop function in progress, mark, cache, announcements and fetch count; other keys untouched |
| `IngestionTurns.LiveTurn` | src/ingestion/ingestor.py:385-474 | an undisturbed live turn is a sequence of protocol steps with the effect of handling one answer |
| `IngestionTurns.BackfillIsSteps` | src/ingestion/ingestor.py:1009-1071 | the backfill loop is a sequence of protocol steps reaching the same mark, progress, cache and announcements |
| `IngestionTurns.PathIsRun` | src/ingestion/ingestor.py:385-486 | such sequences from start-up are runs, so the run theorems apply to the methods |
| `Circuit.WorkerCount` | src/ingestion/ingestor.py:162-163 | the configured number between 2 and 8, 2 below it and 8 above it |
| `Circuit.Mt5Circuit.TrackAbandonedCall` | src/ingestion/ingestor.py:189-203 | registers the call and extends the deadline when unfinished abandoned calls fill the pool |
| `Circuit.Mt5Circuit.Forget` | src/ingestion/ingestor.py:190-192 | the completion callback drops just that call |
| `Circuit.Mt5Circuit.CircuitIsOpen` | src/ingestion/ingestor.py:206-217 | prunes finished calls, extends when saturated, and answers against the new deadline |
| `Circuit.AbandonedFitThePool` | src/ingestion/ingestor.py:176-217 | in every reachable state unfinished abandoned calls fit the pool; saturation means every worker is stuck on one |
| `Circuit.DeadlineNeverDecreases` | src/ingestion/ingestor.py:199-216 | the deadline never decreases over a run |
| `Circuit.AdmittedIff` | src/ingestion/ingestor.py:172-217 | a check admits exactly when a full cooldown has passed since every recorded saturation, its own included |
| `Circuit.AdmissionRespectsCooldown` | src/ingestion/ingestor.py:172-217 | every saturated check or registration before an admitting check lies a cooldown back, and with a positive cooldown that check saw free capacity |
| `Circuit.CooldownSeconds` | src/ingestion/ingestor.py:59-62 | the longer of the timeout and the symbol cooldown, the latter counted up to half a minute |
| `Circuit.ConfiguredAdmission` | src/ingestion/ingestor.py:50-62 | for the configured pool, an admitting check saw fewer stuck calls than workers and came at least a call timeout, and half a minute or the symbol cooldown, after every saturation |
| `Scheduling.CyclePicksDistinct` | src/ingestion/ingestor.py:281-290 | a cycle with a window narrower than the list picks no position twice |
| `Scheduling.EvenShares` | src/ingestion/ingestor.py:281-290 | after any number of cycles each position was picked floor or floor + 1 times its even share |
| `Scheduling.FullRotationIsFair` | src/ingestion/ingestor.py:281-290 | any n consecutive cycles pick each position exactly w times |
| `Scheduling.AllReachedIff` | src/ingestion/ingestor.py:281-290 | all positions are reached if and only if the cycles offer at least n picks |
| `Scheduling.CeilingOffersAll` | src/ingestion/ingestor.py:281-290 | that is the case exactly from ceil(n/w) cycles on |
| `Scheduling.FailureAccounting` | src/ingestion/ingestor.py:225-258 | errors since the last success = rounds * threshold + open count, open count below the threshold, for every history |
| `Scheduling.CooldownsAreExponential` | src/ingestion/ingestor.py:240-248 | the first cooldown since the last success lasts min(base, cap), the k-th min(base * 2^k, cap) for any list of powers of two; there are as many as rounds |
| `Scheduling.CooldownsDouble` | src/ingestion/ingestor.py:241-245 | for non-negative base and cap each next cooldown is min(2 * previous, cap) and none is shorter |
| `Scheduling.ShippedCooldowns` | config/ingest.ini:35-41 | under the shipped settings they last 60, 120, 240 and then 300 seconds |
| `Scheduling.AttemptedIff` | src/ingestion/ingestor.py:223-228 | a visit is attempted exactly when its cycle starts no earlier than the latest cooldown ends |
| `Scheduling.NoAttemptInsideCooldown` | src/ingestion/ingestor.py:223-228 | no attempt starts in a cycle whose start lies inside any earlier cooldown |
| `Scheduling.CycleExtendsHistory` | src/ingestion/ingestor.py:222-258 | a cycle takes the tally of a history to the tally of the extended history |
| `Scheduling.IngestLoop.SymbolsForCycle` | src/ingestion/ingestor.py:276-290 | all symbols when they fit, otherwise the next window and the moved cursor |
| `Scheduling.IngestLoop.VisitSymbol` | src/ingestion/ingestor.py:225-258 | one symbol's counters after success, broker error, unexpected error or skip, with the deadline now + min(base * 2^rounds, cap) when a cooldown opens; other symbols untouched |
| `Scheduling.IngestLoop.RunCycle` | src/ingestion/ingestor.py:222-258 | a whole cycle: the selected window, and every symbol's tally after it |
| `Lifecycle.EachCalledOnce` | src/app_runtime/lifecycle.py:62-80 | every registered component is called exactly once, whatever fails |
| `Lifecycle.PlanOrder` | src/app_runtime/lifecycle.py:65-80 | all starts in registration order precede all stops in reverse order |
| `Lifecycle.RunsIffSupported` | src/app_runtime/lifecycle.py:62-85 | every component whose call did not fail runs exactly if it supports the mode; unregistered ones are untouched |
| `Lifecycle.LastModeDecides` | src/app_runtime/lifecycle.py:62-85 | after any failure-free mode sequence the running set depends on the last mode alone |
| `Lifecycle.FailedCallsAreFailures` | src/app_runtime/lifecycle.py:64-85 | the reported errors are exactly the failing calls |
| `Lifecycle.RuntimeComponentRegistry.Register` | src/app_runtime/lifecycle.py:56-57 | a known name is replaced in place, a new one appended, names stay distinct |
| `Lifecycle.RuntimeComponentRegistry.ApplyMode` | src/app_runtime/lifecycle.py:62-85 | the two loops make the planned calls, collect the failing ones and leave the resulting running set |
| `ModeMachine.IngestOnlyNeedsEmptyBook` | src/app_runtime/mode_policy.py:34-54 | ingest_only is entered only in a step whose guard read worked and saw zero positions and zero orders, or found no trading module |
| `ModeMachine.AttemptSucceedsIff` | src/app_runtime/mode_controller.py:154-170 | with a registry every attempt succeeds unless it aims at ingest_only while a query fails or any single position or order is open |
| `ModeMachine.TransitionOutcome` | src/app_runtime/mode_controller.py:143-187 | a rejected transition changes neither mode nor components; an accepted one sets the mode and the components that did not fail |
| `ModeMachine.AfterEodStretch` | src/app_runtime/mode_controller.py:212-240 | an unbroken after-EOD stretch has at most one automatic change, into risk_off or ingest_only |
| `ModeMachine.AfterEodDegradesIff` | src/app_runtime/mode_policy.py:65-83 | exactly when an after-EOD tick leaves a trading mode, and which degraded mode it lands in |
| `ModeMachine.AfterEodLeavesOthers` | src/app_runtime/mode_policy.py:72-75 | after the close a tick changes nothing in a degraded mode or before a first mode |
| `ModeMachine.BeforeEodRestoresIff` | src/app_runtime/mode_policy.py:85-100 | exactly when a pre-EOD tick changes the mode, and that it enters the initial one |
| `ModeMachine.PreEodStretch` | src/app_runtime/mode_controller.py:212-240 | an unbroken pre-EOD stretch has at most one automatic change, to the initial mode |
| `ModeMachine.RestoreHasCause` | src/app_runtime/mode_controller.py:219-240 | a restore is attempted only if a degradation was attempted since the latest operator call |
| `ModeMachine.SessionStartRestoresIff` | src/app_runtime/mode_controller.py:220-229 | the first pre-EOD tick decides for the whole stretch: restored exactly if the guard admits the initial mode |
| `ModeMachine.RestoreCanBeLost` | src/app_runtime/mode_controller.py:226-229 | a concrete run in which the restore is rejected once and never retried |
| `ModeMachine.RuntimeModeController.ApplyModeLocked` | src/app_runtime/mode_controller.py:143-187 | guard, registry, mode and errors; refused exactly without a registry or for ingest_only with a failed query, a position or an order; a rejection changes nothing |
| `ModeMachine.RuntimeModeController.ApplyMode` | src/app_runtime/mode_controller.py:88-115 | equals the operator step of the machine |
| `ModeMachine.RuntimeModeController.EvaluateAutoTransition` | src/app_runtime/mode_controller.py:212-240 | equals the monitor step of the machine |
| `Decay.BuildPolicy` | src/calendar/policy.py:66-90 | every number of the policy from the settings, negative ones as zero, importance at least one; query and filter windows match |
| `Decay.DecayForDelta` | src/calendar/policy.py:33-63 | the decay lies in [0, 1] for every policy and distance |
| `Decay.DecayShape` | src/calendar/policy.py:33-63 | the decay at every distance: 1 when disabled or outside the window, 0 exactly inside the block, in between the share of the span gained on the block |
| `Decay.DecayIsRamp` | src/calendar/policy.py:38-63 | each side with a positive span is one clamped linear ramp of the distance, from its block to its decay window |
| `Decay.DecayIsPiecewiseLipschitz` | src/calendar/policy.py:33-63 | across all branches and for every policy, moves of x minutes that cross no jump change the decay by at most x / m, for m no larger than any positive span |
| `Decay.ShortMovesAreCloseIff` | src/calendar/policy.py:33-63 | short moves obey the bound if and only if they cross no jump |
| `Decay.DecayIsLipschitz` | src/calendar/policy.py:33-63 | with two ramps every move of x minutes changes the decay by at most x / min(span_pre, span_post) |
| `Decay.LipschitzNeedsSpans` | src/calendar/policy.py:41-63 | some slope bound exists if and only if both spans are positive |
| `Decay.ShippedSettingsHaveNoSlope` | src/config/models/runtime.py:115-126 | the default settings admit no slope bound |
| `Decay.ShippedSettingsJumpOnce` | src/config/models/runtime.py:115-126 | under them, moves of at most an hour change the decay by at most a ninetieth per minute if and only if they do not cross the instant half an hour after the event |
| `Decay.QueryProvider` | src/calendar/economic_decay.py:182-208 | the scan loop returns the decay of the nearest timed event, 1 when there is none |
| `Decay.GetEventsIff` | src/calendar/economic_decay.py:184-194 | the query asks for exactly the events from the look-back to the look-ahead, the first five of them |
| `Decay.BestIsNearest` | src/calendar/economic_decay.py:198-205 | the scan's distance is that of a returned event and none is nearer |
| `Decay.QueryIsLowest` | src/calendar/economic_decay.py:182-208 | within the provider limit, and for equal windows or one timed event, the query is the lowest decay of any event |
| `Decay.QueryIsPiecewiseLipschitz` | src/calendar/economic_decay.py:182-208 | two queries x minutes apart, with no event crossing a jump in between, differ by at most x / m, for every policy |
| `Decay.QueryIsLipschitz` | src/calendar/economic_decay.py:182-208 | with two ramps any two queries x minutes apart differ by at most x / min span |
| `Decay.QueryReactsIff` | src/calendar/economic_decay.py:198-208 | a query falls below 1 at some time if and only if some event has the `event_time` attribute |
| `Decay.CalendarEventsNeverDecay` | src/calendar/service.py:431-457 | for the events the providers return the decay is 1 at every time, even when the hard filter blocks on them |
| `Decay.BlockedIff` | src/calendar/economic_decay.py:152-180 | the hard filter blocks if and only if some event lies in its window; its limit of fifty does not matter |
| `Decay.LipschitzIffSymmetric` | src/calendar/economic_decay.py:198-208 | for working ramps the bound holds for every event list if and only if the windows are equal |
| `Decay.UnequalWindowsBreakBound` | src/calendar/economic_decay.py:198-208 | concrete windows for which it fails |
| `Decay.BlockMeansZeroIff` | src/calendar/economic_decay.py:152-208 | a hard block on an event the query can see implies decay 0 for every event list if and only if the longer block meets no ramp on the other side, for working ramps: equal blocks |
| `Decay.BlockWithoutZeroDecay` | src/calendar/economic_decay.py:152-208 | concrete blocks and two events for which it fails |
| `Decay.StalenessBound` | src/calendar/economic_decay.py:210-219 | an answer computed less than ttl away, with no jump in between, is off by less than ttl / m, for every policy |
| `Decay.ShippedStaleness` | src/calendar/economic_decay.py:210-219 | under the default settings a cached answer about one event is off by less than a ninetieth of the ttl unless the event turned half an hour old meanwhile |
| `Decay.EvictOldest` | src/calendar/economic_decay.py:233-239 | keeps a submap of as many entries as fit, dropped ones no newer than kept ones |
| `Decay.EconomicDecayService.ReadCache` | src/calendar/economic_decay.py:210-219 | hits exactly when an entry exists and is younger than the ttl |
| `Decay.EconomicDecayService.WriteCache` | src/calendar/economic_decay.py:221-239 | every entry stays a genuine query result; everything is kept if it fits, otherwise as many unexpired entries as fit, the oldest going first |
| `Decay.EconomicDecayService.DecayFactor` | src/calendar/economic_decay.py:121-150 | a young entry is answered unchanged, reachable or not; otherwise an unreachable provider gives 1 and the cache is untouched; otherwise the answer is fresh and inserted at this time; a young answer is, with no jump in between, within ttl / m of the fresh one |
| `Supervision.DelaysGrowWithinBounds` | src/entrypoint/supervisor.py:226-235 | delays never shrink with the restart count, in [5, 32] after a fatal exit and [1, 16] otherwise |
| `Supervision.ClassifyExitCode` | src/entrypoint/supervisor.py:82-100 | 0 is normal, 1 to 127 transient, below 0 or from 128 fatal, and each class means just that |
| `Supervision.DelayTable` | src/entrypoint/supervisor.py:226-235 | the delays are 5, 5, 8, 16, 32 seconds after a fatal exit and 1, 2, 4, 8, 16 after any other, staying at the last |
| `Supervision.RestartSleeps` | src/entrypoint/supervisor.py:190-236 | every restart sleeps first, as long as its exit code and the number of earlier restarts of the instance demand |
| `Supervision.RestartsAreCounted` | src/entrypoint/supervisor.py:256-265 | the restart count of a managed instance is exactly the number of its restarts and refused restarts |
| `Supervision.StartOutcome` | src/entrypoint/supervisor.py:159-185 | what gate and process creation decide at start-up: started, parked, or the group ends |
| `Supervision.RestartOutcome` | src/entrypoint/supervisor.py:237-267 | what they decide at a restart: replaced, kept with a higher count, or the group ends |
| `Supervision.RetryOutcome` | src/entrypoint/supervisor.py:287-304 | a parked worker starts if both succeed, otherwise everything stays |
| `Supervision.SupervisorIsSafe` | src/entrypoint/supervisor.py:148-304 | in every reachable state: one live process per instance, stopping leaves none, workers split between managed and pending |
| `Supervision.TrackedIffDistinct` | src/entrypoint/supervisor.py:159-185 | every live process is tracked in every run if and only if no instance is listed twice |
| `Supervision.RepeatedWorkerLeaks` | src/entrypoint/supervisor.py:171-185 | a run in which a worker listed twice leaves an untracked live process |
| `Supervision.SpawnsFollowGates` | src/entrypoint/supervisor.py:159-304 | every spawn directly follows a passing gate check of the same instance |
| `Supervision.RestartCountsGrow` | src/entrypoint/supervisor.py:237-265 | while managed, an instance's restart count never goes back |
| `Supervision.PathIsRun` | src/entrypoint/supervisor.py:139-146 | what the methods do from the start is a run |
| `Supervision.Supervisor.StartInitial` | src/entrypoint/supervisor.py:159-185 | start-up is a path of start steps, ending in monitoring with all instances handled, or stopped; always stopped when main is refused or does not become ready |
| `Supervision.Supervisor.PollInstance` | src/entrypoint/supervisor.py:189-267 | one instance of a sweep: nothing while it lives, otherwise the restart step, then shutdown if a restarted main does not become ready; a normal exit is counted |
| `Supervision.Supervisor.MonitorSweep` | src/entrypoint/supervisor.py:187-267 | a sweep, with processes exiting between polls, is a path of exits, restarts and at most a shutdown; it keeps the managed instances or stops |
| `Supervision.Supervisor.RetryPendingWorkers` | src/entrypoint/supervisor.py:272-304 | throttled; only workers that passed gate and spawn leave the pending set, and unless a stop request ended it early, all of them do |
| `Supervision.Supervisor.StopAll` | src/entrypoint/supervisor.py:148-157 | kills every tracked process and forgets them |
| `CalendarLifecycle.StatusNeverRegresses` | src/calendar/service.py:289-303 | for an unchanged report the status never regresses as observation time grows |
| `CalendarLifecycle.StoredStatusFits` | src/calendar/service.py:289-327 | after any batches each status holds exactly when the last report's figures, day, schedule and buffer at its observation say so; a released event has a release time |
| `CalendarLifecycle.StoreShowsLastObservation` | src/calendar/service.py:305-327 | an event is stored exactly if it was observed, with the report and the time of its last observation |
| `CalendarLifecycle.ReleaseTimeIsFirst` | src/calendar/service.py:318-320 | the release time is that of the first observation that left the event released |
| `CalendarLifecycle.ReasonIsFirstDifference` | src/calendar/service.py:329-360 | the reason of a snapshot is the first kind of difference in a fixed order of precedence |
| `CalendarLifecycle.HistoryGrows` | src/calendar/economic_calendar/calendar_sync.py:93-102 | a batch adds to the history of an event exactly the snapshot that is due, if any |
| `CalendarLifecycle.ReobservedBatchIsSilent` | src/calendar/service.py:305-360 | observing an agreeing batch again at the same time writes no snapshot, whatever the calendar held |
| `CalendarLifecycle.SnapshotIffTrackedDiffers` | src/calendar/service.py:329-360 | no snapshot is due exactly when no tracked field differs |
| `CalendarLifecycle.TimesAreWriteOnce` | src/calendar/service.py:305-327 | over any batches first-seen and ingested never change and released_at is written once |
| `CalendarLifecycle.HistoryExplainsStore` | src/calendar/economic_calendar/calendar_sync.py:70-120 | after any batches whose reports of one event agree, the stored tracked fields are those of the last snapshot |
| `CalendarLifecycle.BatchKeepsHistoryIff` | src/calendar/economic_calendar/calendar_sync.py:80-120 | a batch keeps every explained calendar explained if and only if its reports of one event agree; calendars reached by one batch already tell |
| `CalendarLifecycle.ReobservationEmitsIffStatusMoved` | src/calendar/service.py:305-360 | re-observing an unchanged report emits a snapshot exactly when its status moved, so never at the same instant |
| `CalendarLifecycle.DuplicateBreaksHistory` | src/calendar/economic_calendar/calendar_sync.py:80-102 | a batch mentioning an event twice can end the history on a version that is not stored |
| `CalendarLifecycle.EconomicCalendarService.WriteEvents` | src/calendar/economic_calendar/calendar_sync.py:70-138 | the loop equals one batch of the model and reports the rows and snapshots written and the rows deleted |
| `CalendarSync.JobKeepsLatestReport` | src/calendar/economic_calendar/calendar_sync.py:176-180 | a job hands over one report per fetched event, none scheduled earlier than another of that event |
| `CalendarSync.JobKeepsPreferred` | src/calendar/economic_calendar/calendar_sync.py:153-180 | of the fetched reports of an event the job keeps the one scheduled last, and of several such the one fetched last |
| `CalendarSync.FetchIsExisting` | src/persistence/repositories/economic_repo.py:119-137 | with one row per event the newest-row fetch returns the calendar's event |
| `CalendarSync.DeletionsAreCounted` | src/calendar/economic_calendar/calendar_sync.py:91-137 | the reported number of deletions is the number of rows that go |
| `CalendarSync.BatchKeepsOneRow` | src/calendar/economic_calendar/calendar_sync.py:91-120 | deletions and upserts keep one row per event, also for rescheduled events, and the conflict rule changes nothing |
| `CalendarSync.JobsKeepOneExplainedRow` | src/calendar/economic_calendar/calendar_sync.py:70-180 | after any jobs the table holds one row per event ever seen, the lifecycle's result, explained by the last snapshot |
| `CalendarSync.RowsShowStatus` | src/calendar/economic_calendar/calendar_sync.py:70-180 | after any jobs every row shows the last fetched report, the status it demands, and the first release time |
| `CalendarSync.UpsertsKeepTimes` | src/persistence/schema/economic_calendar.py:183-215 | on any table, upserts change no first-seen, ingested or release time that is already stored |
| `ConfigLayers.MergeParsers` | src/config/utils.py:84-98 | the three nested loops equal the layer fold |
| `ConfigLayers.MergeIsLastWins` | src/config/utils.py:84-98 | the merged value of an option is that of the last layer holding it, absent if none does |
| `ConfigLayers.MergedValueIs` | src/config/utils.py:185-219 | the merged value by precedence: any target file over any base file; in each, instance local, shared local, instance, shared |
| `ConfigLayers.ValueAtIs` | src/config/utils.py:93-97 | a file gives a value only in a section it declares; the option wins over the default; names ignore case |
| `ConfigLayers.InstanceScopedIff` | src/config/utils.py:13-34 | instance files are read exactly for the four instance-scoped configurations and their local variants |
| `ConfigLayers.LocalNames` | src/config/utils.py:21-52 | the local variant of a file and the way back |
| `ConfigLayers.LoadConfigWithBase` | src/config/utils.py:155-231 | no configuration when no file exists, otherwise the merge of the layers in the code's order, with the target's path |
| `ConfigLayers.PathIsLastLayer` | src/config/utils.py:55-75 | the path reported for a file is that of its last layer, and absent if and only if it has none |
| `ConfigLayers.Candidates` | src/config/utils.py:251-270 | the hand-built candidate list is the exact reverse of the merge order, base = target included |
| `ConfigLayers.GetMergedOptionSource` | src/config/utils.py:234-275 | the scan reports file, section and key of the first candidate holding the option, nothing for empty names |
| `ConfigLayers.SourceExplainsMergedValue` | src/config/utils.py:155-275 | the reported layer is the last that holds the option and holds exactly the merged value; absent if and only if the merged config lacks it |
| `ConfigLayers.DocumentedOrderAgreesIff` | src/config/utils.py:164-214 | the documented and the coded order give an option the same value exactly under a condition on the deciding file group |
| `ConfigLayers.DocumentedOrderCanDiffer` | src/config/utils.py:164-214 | concrete files for which they differ |

## Left out

- Real threads, MT5 and HTTP calls, the database engine, logging, API routes and wiring: only their possible answers appear, as step parameters.
- Quotes, ticks, health snapshots, the intrabar pipeline behind `set_intrabar` and the delivery of announced closes after they are enqueued.
- Exactly-once announcement across the two ingestion threads: both may announce the same bar, so order is claimed per thread and coverage jointly.
- Liveness across long broker gaps, and finality of bar values: coverage is about bar times.
- An unexpected exception in the middle of a live commit; the source only expects the broker call to fail. Between backfill iterations the stop flag may end the loop; every such run is a prefix of a modelled one.
- Ingestion.EveryBarUpToMarkIsDelivered: assumes answers are gapless from the requested start and broker bars lie a timeframe apart, as `src/clients/mt5_market.py:214-243` is meant to deliver.
- Ingestion.BackgroundIngestor.IngestBatch: the storage rows of the same turn, which carry the announced bars, and the parent synthesis after it are not part of the method; synthesis has its own modules.
- BarCache.MarketDataService.SetOhlcClosed: bars are values, so the source's in-place change of a caller's bar object (aliasing) is not captured.
- BarCache.MarketDataService.UpdateOhlcIndicators: the same; the updated bar replaces the old one in the list.
- `get_ohlc_closed` merging with storage: the live read is modelled on the bars the service returns, the cache theorem on writes and updates.
- Synthesis.TimeframeSeconds: changes the case of ASCII letters only; time zones are not modelled.
- Decay.StalenessBound: stated within the provider's limit of five events, whose order the source leaves to the provider; the ttl is in minutes.
- Decay.EconomicDecayService.DecayFactor: the events the provider knows for a symbol are fixed; when they change between two calls a cached answer is about the old ones.
- Decay.BlockMeansZeroIff: an event that blocks but has no `event_time` is covered by `CalendarEventsNeverDecay` instead.
- Floating-point rounding everywhere: reals are exact.
- Supervision.SupervisorIsSafe: an interrupt between creating a process and recording it is not modelled; a readiness timeout is a shutdown step.
- Supervision.Supervisor.PollInstance: the counter of normal exits recounts an exit while a worker's gate keeps failing, as in the source; no property is claimed of it beyond one poll.
- CalendarSync.JobsKeepOneExplainedRow: writes are synchronous; the asynchronous storage queue with back-pressure, provider fetching, enrichment and the release callback are not modelled.
- ModeMachine.RuntimeModeController.ApplyModeLocked: the timestamp, reason and audit fields are not modelled.
- ModeMachine.RuntimeModeController.ApplyMode: parsing of mode strings and the returned snapshot are not modelled.
- ConfigLayers.LoadConfigWithBase: absolute paths, empty names and the normalisation of instance names are not modelled.
- Promotion thresholds, overlay counters, market-structure detectors, session-state probes and batch trade results would only add easy members.
