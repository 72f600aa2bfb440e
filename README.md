# Hyperliquid wallet positioning dashboard — a Dafny model of its core

The dashboard tracks the top Hyperliquid wallets by 30-day PnL (the *universe*)
and snapshots their HYPE, BTC and ETH positions every minute. Every five
minutes it turns the snapshots into signals for each asset:

- the Consensus Alignment Score (CAS), with its trend;
- the Dispersion Index;
- the Exit Cluster score;
- the allowed playbook and risk mode that follow from them.

On top of the signals it runs three alerts: Regime Change, Exit Cluster and
System Stale. These are throttled by cooldowns and by a daily limit. Small UI
helpers label the results.

This project models that core, one Dafny module per source file.

**Ingestion.** The universe refresh lives in `Universe`, leaderboard and
clearinghouse parsing in `HyperliquidClient`, and snapshot ingestion with its
run and health rows in `Snapshots`.
- The database tables are fields of small store classes: `UniverseStore` and
  `IngestStore`.
- The operations that change them are methods proved against pure functions.

**Signals.** Window aggregation is in `Aggregator`, wallet classification and
ε in `Classifier`, and the CAS, trend, dispersion and exit-cluster scores in
`SignalCore`. The playbook matrix is in `Playbook`, and the five-minute cycle
behind the Signal Lock is in `Runner`.

**Alerts.**
- The alert tables are the class `AlertPersistence.AlertStore`.
- Each evaluator is a method whose new state and result equal a pure "effect"
  function, and the lemmas are stated about those functions. The evaluators are
  `RegimeChange`, `ExitCluster` and `SystemStale`, with `Throttling` beside them
  and `Evaluator` running them in order.

**UI.** `UiHealth`, `Charts` and `PositioningPanel`.

**Shared modules.** `Clock` holds time arithmetic on integer seconds, `Ratios`
holds percentages, `Sorting` holds a stable descending insertion sort, `Config`
holds the settings, and `Wrappers` holds `Option`.

Two behaviours of the code are modelled as written, and lemmas exhibit both:

- **Exit Cluster can never fire.** `evaluate_exit_cluster_alert` writes the
  alert state with its 60-minute cooldown *before* it asks the throttle.
  Therefore every trigger finds itself in cooldown: it is stored as a
  suppressed alert and the evaluator never returns true
  (`ExitCluster.ExitEffect`, `Evaluator.EvaluateAlertsEffect`).
- **Successful universe refreshes are stored as failed.** `refresh_universe`
  inserts the run row while its status is still "failed" and marks the run
  "success" only afterwards. So the returned run says success, but the stored
  row says failed (`Universe.UniverseRefresher.RefreshUniverse`).

Two further points of the code that the model keeps:

- A throttled attempt can still change an alert's state: Exit Cluster writes
  `is_active` and `cooldown_until` before it asks the throttle.
- The daily limit counts the alerts whose time lies in the 24 hours before
  `now`; it is a sliding window, not one anchored at the first alert.

## Model

| member | source | states |
|---|---|---|
| Aggregator.GetSignalTimestamp | src/signals/aggregator.py:13-23 | the signal time has second 0 and the minute of `now` floored to a multiple of 5, in the same hour, so it is at most `now` and less than 5 minutes before it |
| Aggregator.WindowRows | src/signals/aggregator.py:42-57 | a row is selected exactly when it is in the table, is for the asset, is not dirty and has its snapshot time in (start, end] |
| Aggregator.FetchSnapshotsForWindow | src/signals/aggregator.py:26-67 | exactly the clean rows of the asset in (signal time − window, signal time], each once, ordered by wallet id ascending and within a wallet newest first |
| Aggregator.SortRows | src/signals/aggregator.py:58 | the rows come out in `wallet_id, snapshot_ts DESC` order and are a permutation of the input |
| Aggregator.QueryBeforeTransitive | src/signals/aggregator.py:58 | the query's order is transitive (with QueryBeforeTotal, total), so sorting by it is well defined |
| Aggregator.QueryOrderIsNewestFirst | src/signals/aggregator.py:58 | rows in the query's order list each wallet's rows newest first |
| Aggregator.GetLatestSnapshotPerWallet | src/signals/aggregator.py:70-87 | the result equals LatestPerWallet: one entry per distinct wallet id, holding that wallet's first row in list order (FirstOf, whose first-ness FirstOfIsFirst proves); when each wallet's rows come newest first no row of the wallet is newer |
| Aggregator.FirstOfIsFirst | src/signals/aggregator.py:82-87 | the row kept for a wallet sits at an index before which no row of that wallet occurs, so it is the wallet's first row in list order |
| Aggregator.FirstIsLatest | src/signals/aggregator.py:82-87 | when each wallet's rows come newest first, the first row kept per wallet has the largest snapshot time of that wallet |
| Aggregator.BuildWalletDeltas | src/signals/aggregator.py:90-144 | the result equals DeltasOf(current, previous): the output keys are exactly the current window's wallets, so previous-only wallets are dropped; delta = current − previous size when a previous row exists, otherwise previous size and delta are both missing |
| Aggregator.ValidAndMissingPartition | src/signals/aggregator.py:215-216 | wallets with a delta plus wallets without one = all delta entries |
| Aggregator.AggregateForSignalPeriod | src/signals/aggregator.py:181-223 | the deltas are exactly PeriodDeltas: DeltasOf the latest row per wallet of the current window (signal time − 5 min, signal time] against the latest row per wallet of the window before it; they cover exactly the wallets seen in the current window; wallet_count counts non-missing deltas and wallet_count + missing_count = number of entries |
| Aggregator.Fetch24hHistory | src/signals/aggregator.py:147-178 | the size of every row of the wallet and asset from the last 24 hours is in the history, and the history is no longer than the table |
| Aggregator.LatestHealth | src/signals/aggregator.py:240-251 | none exactly when there are no health rows; otherwise a stored row with the largest health time |
| Aggregator.CheckSignalLock | src/signals/aggregator.py:226-272 | open iff a health row exists, is not stale and its snapshot status is not failed; coverage is not consulted |
| Aggregator.LockOpenAfterRecentSuccess | src/ingest/snapshots.py:287-297 | if the lock is open on the health an ingest run wrote, that run did not fail and the last success is at most 3 minutes old |
| AlertPersistence.AlertRowFor | src/alerts/persistence.py:13-90 | the alert row is stamped `now`, 'SYSTEM' is stored as a null asset, and cooldown_until is `now` exactly when no cooldown is given (later otherwise) |
| AlertPersistence.GetAlertState | src/alerts/persistence.py:149-181 | none iff no row exists for (asset, type); otherwise the row's is_active, last_triggered_ts and cooldown_until |
| AlertPersistence.UpsertAlertState | src/alerts/persistence.py:93-146 | reading the key back gives is_active, last_triggered = now iff active, and cooldown_until = now + minutes or null; an existing row keeps its regime columns; every other key is unchanged |
| AlertPersistence.GetRegimeTrackingState | src/alerts/persistence.py:184-222 | none iff the asset has no regime row; otherwise the stored pending playbook, period count and previous playbook |
| AlertPersistence.UpsertRegimeTracking | src/alerts/persistence.py:225-278 | reading the tracking back returns what was written; is_active and cooldown_until are untouched on conflict; other keys are unchanged |
| AlertPersistence.AlertStore.PersistAlert | src/alerts/persistence.py:13-90 | appends exactly one alert row and leaves the state table alone |
| AlertPersistence.AlertStore.UpdateAlertState | src/alerts/persistence.py:93-146 | the state table becomes the upsert above and the alerts are untouched |
| AlertPersistence.AlertStore.UpdateRegimeTrackingState | src/alerts/persistence.py:225-278 | the state table becomes the tracking upsert and the alerts are untouched |
| Classifier.EpsilonAbsolute | src/signals/classifier.py:22-26 | the per-asset floor is positive and is 0.01 for an asset outside HYPE, BTC and ETH |
| Classifier.MedianWithin | src/signals/classifier.py:56 | the median of non-empty data lies between any lower and upper bound of the data |
| Classifier.CalculateEpsilon | src/signals/classifier.py:29-63 | ε is at least the asset's positive floor, and equals it for an empty history |
| Classifier.EpsilonIsMaxOfFloorAndRelative | src/signals/classifier.py:54-63 | for a non-empty history, ε = max(floor, 0.02 · median of the absolute sizes), which also covers a zero median |
| Classifier.MedianNonNegative | src/signals/classifier.py:55-56 | the median of absolute sizes is never negative |
| Classifier.ClassifyWallet | src/signals/classifier.py:66-108 | no previous size gives FLAT; AdderLong, AdderShort and Reducer each hold iff their condition holds and no earlier one does; otherwise FLAT |
| Classifier.StatesDescribeMoves | src/signals/classifier.py:93-108 | with ε ≥ 0, an AdderLong grew a long, an AdderShort grew a short, a Reducer shrank \|size\|, and an unchanged position is FLAT |
| Classifier.FlipIsAdderNotReducer | src/signals/classifier.py:93-108 | a flip from −10 to +1 is AdderLong although it also meets the Reducer condition, because the adder checks come first |
| Classifier.ClassifyWallets | src/signals/classifier.py:111-156 | the result equals ClassifiedWallets: exactly the wallets whose delta is present, each classified by ClassifyWallet of its sizes with ε computed from its own 24-hour history of the snapshot table before `now`, and every ε is at least the floor |
| Classifier.AggregateClassifications | src/signals/classifier.py:159-199 | each count is the number of wallets in that state; the four counts sum to n_total = number of classified wallets |
| Classifier.GetWalletPercentages | src/signals/classifier.py:202-233 | all zero when n_total = 0; otherwise each of the four percentages × n_total = 100 × its count |
| Classifier.PercentagesPartition | src/signals/classifier.py:220-233 | with a complete partition, each percentage lies in [0,100] and the four sum to 100 |
| SignalCore.ComputeCas | src/signals/core.py:13-50 | CAS ∈ [0,100]; 50 when n_total = 0; at most 60 when exit cluster > 25 |
| SignalCore.CasBalancedIsNeutral | src/signals/core.py:37-42 | equal long and short adder counts give 50 |
| SignalCore.CasExtremes | src/signals/core.py:42-50 | all-long adders give 100 (with exit cluster ≤ 25); all-short adders give 0 |
| SignalCore.CasMonotoneInLongAdders | src/signals/core.py:42-50 | more long adders never lower CAS |
| SignalCore.CasExample | src/signals/core.py:42-50 | 20 wallets with 12 long and 2 short adders at exit cluster 10 give CAS 75 |
| SignalCore.ComputeAlignmentTrend | src/signals/core.py:79-116 | flat with fewer than 3 past values; otherwise rising iff CAS > mean + 5, falling iff CAS < mean − 5, else flat |
| SignalCore.TrendDeadZone | src/signals/core.py:101-116 | against a constant history, a move is rising iff it exceeds +5 and falling iff it is below −5 |
| SignalCore.Clamp | src/signals/core.py:150 | the ratio is clamped into [−2,2] and left alone inside it |
| SignalCore.RatioOf | src/signals/core.py:142-152 | a ratio exists iff the wallet has a previous size, and it lies in [−2,2] (the denominator max(\|prev\|, ε) is positive) |
| SignalCore.DispersionOf | src/signals/core.py:155-168 | Di ∈ [0,100]; 50 with fewer than 5 ratios; 0 when all ratios are equal |
| SignalCore.ComputeDispersionIndex | src/signals/core.py:119-172 | Di is DispersionOf over a list holding each clamped ratio exactly as often as wallets with a previous size have it; so it is in [0,100] and is 50 with fewer than 5 such wallets |
| SignalCore.CollectRatios | src/signals/core.py:137-152 | the ratios are, as a multiset, exactly one clamped ratio per wallet with a previous size |
| SignalCore.DispersionIndependentOfOrder | src/signals/core.py:137-172 | any two lists holding the wallets' ratios give the same Di when the deviation ignores order, so the map's iteration order does not matter |
| SignalCore.UniformMovesHaveNoDispersion | src/signals/core.py:159-162 | if at least 5 wallets all move by the same ratio, Di = 0 |
| SignalCore.ComputeExitClusterScore | src/signals/core.py:175-197 | 0 when n_total = 0; otherwise the reducers' percentage of n_total |
| SignalCore.ExitClusterMeaning | src/signals/core.py:189-193 | with reducers ≤ total, the score lies in [0,100], and it exceeds 25 iff more than a quarter of the wallets are reducers |
| SignalCore.ComputeAllSignals | src/signals/core.py:200-247 | exit cluster is computed first and fed into CAS; the trend uses that CAS; Di is DispersionOf over the wallets' ratios; both scores are in [0,100] |
| Evaluator.FiredTypes | src/alerts/evaluator.py:45-55 | a type is in the list exactly when its evaluator returned true |
| Evaluator.EvaluateAlertsEffect | src/alerts/evaluator.py:14-62 | while System Stale is active nothing changes and [] is returned; otherwise at most two alert rows are added and only regime_change can be reported |
| Evaluator.EvaluateAlerts | src/alerts/evaluator.py:14-62 | the store and the result are those of EvaluateAlertsEffect |
| Evaluator.EvaluateSystemAlertsEffect | src/alerts/evaluator.py:65-83 | reports system_stale iff the stale check holds and the alert was inactive; afterwards the alert is active iff the check holds |
| Evaluator.EvaluateSystemAlerts | src/alerts/evaluator.py:65-83 | the store and the result are those of EvaluateSystemAlertsEffect |
| Evaluator.AssetsEffect | src/alerts/evaluator.py:107-121 | only assets with signals get a key, every key has a non-empty list, and the System Stale flag is unchanged |
| Evaluator.AllAlertsEffect | src/alerts/evaluator.py:86-130 | each key is 'SYSTEM' or an asset with signals, with a non-empty list; afterwards System Stale is active iff the stale check holds |
| Evaluator.EvaluateAllAlerts | src/alerts/evaluator.py:86-130 | the store and the result are those of AllAlertsEffect |
| Evaluator.SuppressedAssetsAreNoOps | src/alerts/evaluator.py:35-41 | with System Stale active, evaluating any list of assets changes nothing |
| Evaluator.StaleCycleSuppressesBehaviouralAlerts | src/alerts/evaluator.py:107-118 | in a cycle where ingestion is stale, no asset gets an entry, so regime change and exit cluster are skipped in that same cycle |
| ExitCluster.ExitTransition | src/alerts/exit_cluster.py:56-80 | triggers iff inactive and score > 25, and then becomes active; it flips only on a trigger or on active with score < 20; scores in [20,25] never change the state |
| ExitCluster.ExitEffect | src/alerts/exit_cluster.py:16-114 | suppressed: nothing changes; otherwise the state is written with a 60-minute cooldown on a trigger and a null one otherwise; a trigger appends exactly one (suppressed) alert; it never fires; other keys are unchanged |
| ExitCluster.EvaluateExitClusterAlert | src/alerts/exit_cluster.py:16-114 | the store and the result are those of ExitEffect, so it never returns true |
| ExitCluster.Triggers | src/alerts/exit_cluster.py:56-80 | one trigger flag per evaluated score |
| ExitCluster.NoRetriggerWithoutReset | src/alerts/exit_cluster.py:65-80 | while every score stays at 20 or above, an active alert stays active and never triggers again |
| ExitCluster.HysteresisExample | src/alerts/exit_cluster.py:56-80 | the scores 10, 24, 26, 22, 19, 27 trigger exactly at 26 and at 27 |
| HyperliquidClient.UnsignedDecimal | src/ingest/hyperliquid_client.py:239 | a digit string with at most one point parses to a non-negative number |
| HyperliquidClient.ParseDecimal | src/ingest/hyperliquid_client.py:239 | a parsed leading '−' gives a non-positive value; any other parse is non-negative |
| HyperliquidClient.NegationSign | src/ingest/hyperliquid_client.py:239 | '−' followed by a string parses to the negation of that string's value, so shorts keep their sign |
| HyperliquidClient.ToFloat | src/ingest/hyperliquid_client.py:239 | numbers convert to themselves; null, lists and objects raise; a string converts iff it parses |
| HyperliquidClient.ToOptFloat | src/ingest/hyperliquid_client.py:247-252 | null stays none; any other value converts iff `float` accepts it |
| HyperliquidClient.ParseExamples | tests/test_ingestion.py:140-155 | "-2.5", "5" and "1500.0" parse to their values; "." and "" do not parse |
| HyperliquidClient.DictOfPairs | src/ingest/hyperliquid_client.py:177 | building a dict succeeds iff every item unpacks to a pair (a two-element list with a hashable first element, or a two-character string), and then its keys are exactly the pairs' keys |
| HyperliquidClient.DictOfPairsLastWins | src/ingest/hyperliquid_client.py:177 | the value under a key is that of the last pair with that key |
| HyperliquidClient.DictOf | src/ingest/hyperliquid_client.py:177 | a JSON object becomes the dict of its own keys |
| HyperliquidClient.MonthFigure | src/ingest/hyperliquid_client.py:180-182 | a missing month window, or a missing key in it, yields 0.0 |
| HyperliquidClient.ParseLeaderboardRow | src/ingest/hyperliquid_client.py:152-197 | a record exists iff the row is an object with a truthy ethAddress, its windowPerformances convert to a dict, and the month's pnl, roi and the account value all convert; the record carries that id, the converted month PnL and ROI and the converted account value, which is missing iff the field is null or missing |
| HyperliquidClient.MonthFiguresAreStored | src/ingest/hyperliquid_client.py:173-190 | a row whose month window holds numeric pnl and roi parses to exactly those month figures, with no account value when the field is absent |
| HyperliquidClient.MissingMonthIsZero | src/ingest/hyperliquid_client.py:180-187 | without a month window and an account value, the row parses to month PnL 0.0, month ROI 0.0 and no account value |
| HyperliquidClient.FindPositionIsFirst | src/ingest/hyperliquid_client.py:221-225 | a found position is the first entry whose coin is the asset |
| HyperliquidClient.PositionFields | src/ingest/hyperliquid_client.py:238-262 | if any of the five conversions raises, the explicit zero record; if all five succeed, exactly the record of the five converted values (size, entry price, liquidation price, leverage, margin) |
| HyperliquidClient.SizeOnlyPosition | src/ingest/hyperliquid_client.py:238-252 | a position with only a size has no prices and no margin, and leverage 0 |
| HyperliquidClient.NoPositionsIsZero | src/ingest/hyperliquid_client.py:218-235 | without assetPositions the result is size 0.0 with every other field missing |
| HyperliquidClient.ParsePositionData | src/ingest/hyperliquid_client.py:200-262 | the loop finds the first matching entry and yields exactly the modelled outcome |
| HyperliquidClient.NegativeSizeString | tests/test_ingestion.py:140-155 | size "-2.5" with leverage {"value": "5"} is read as −2.5 at leverage 5.0 |
| HyperliquidClient.SizeAndLeverageStrings | tests/test_ingestion.py:86-109 | "-2.5" converts to −2.5, and a leverage dict {"value": "5"} converts to 5.0 |
| Playbook.DeterminePlaybook | src/signals/playbook.py:9-126 | Di ≥ 60 or EC > 25 gives No-trade/Defensive; a falling trend with CAS > 60 gives No-trade/Reduced; Long-only needs CAS ≥ 60 and Short-only CAS < 40; Normal risk iff one of the two strong setups holds |
| Playbook.NeutralZone | src/signals/playbook.py:38-54 | for 40 ≤ CAS < 60 the result is always No-trade/Defensive |
| Playbook.UnmatchedIsReduced | src/signals/playbook.py:85-90 | CAS 70, flat, Di 30, EC 10 falls through to No-trade/Reduced |
| Playbook.SixtyIsLongWithMediumDispersion | src/signals/playbook.py:73-90 | CAS exactly 60 with a falling trend and Di 50 is Long-only/Reduced |
| Playbook.ComputeDerivedOutputs | src/signals/playbook.py:129-170 | add_exposure iff rising ∧ EC < 16 ∧ Di < 60; tighten_stops iff EC > 25 ∨ falling ∨ Di ≥ 60; never both |
| Playbook.ApplyPlaybookLogic | src/signals/playbook.py:173-209 | keeps the core signals and adds the playbook, risk mode and the two derived flags |
| Playbook.TightenStopsExcludesNormalLong | src/signals/playbook.py:154-165 | when stops are tightened, the result is never Long-only at Normal risk |
| Ratios.PercentBounds | src/signals/classifier.py:220-233 | a count out of a positive total is a percentage in [0,100] |
| Ratios.PercentsAddUp | src/signals/classifier.py:220-233 | four counts that sum to the total give percentages summing to 100 |
| Ratios.PercentTimesTotal | src/signals/classifier.py:220-233 | percentage × total = 100 × count |
| Ratios.PercentAboveQuarter | src/signals/core.py:189-193 | the percentage exceeds 25 iff 4 × count > total |
| RegimeChange.NextTracking | src/alerts/regime_change.py:137-205 | the first evaluation records previous = current with nothing pending; a confirmation promotes current; a new playbook becomes pending with count 1; reverting cancels |
| RegimeChange.RegimeEffect | src/alerts/regime_change.py:17-216 | suppressed: nothing changes; fires iff the pending playbook is confirmed and throttling allows it; on firing it appends one unsuppressed alert and sets a 30-minute cooldown; only this asset's row changes |
| RegimeChange.EvaluateRegimeChangeAlert | src/alerts/regime_change.py:17-216 | the store and the result are those of RegimeEffect |
| RegimeChange.TrackingStaysWellFormed | src/alerts/regime_change.py:137-192 | a well-formed tracking (pending none iff count 0, count ≤ 1, pending ≠ previous) stays well-formed |
| RegimeChange.ConfirmsExactlyAtPending | src/alerts/regime_change.py:81-131 | on well-formed tracking, confirmation happens iff the current playbook is the pending one |
| RegimeChange.ConfirmationNeedsTwoPeriods | src/alerts/regime_change.py:81-157 | a confirmation needs the same new playbook in two consecutive periods |
| RegimeChange.OnePeriodFlipIsCancelled | src/alerts/regime_change.py:194-205 | a→b→a never confirms and leaves previous = a with nothing pending |
| RegimeChange.TwoPeriodsConfirm | src/alerts/regime_change.py:81-131 | a→b→b confirms b and clears the pending state |
| RegimeChange.StoredTrackingStaysWellFormed | src/alerts/regime_change.py:137-192 | the tracking stored after any evaluation stays well-formed, so the anomaly branch is unreachable |
| Runner.SignalTables.PersistSignal | src/signals/persistence.py:12-107 | upserts the signals row of (time, asset) with wallet_count = n_total; contributors are untouched |
| Runner.SignalTables.PersistContributors | src/signals/persistence.py:110-194 | upserts the contributors row of (time, asset); signals are untouched |
| Runner.SignalsByAsset | src/signals/runner.py:172-202 | the keys are exactly the assets that returned a result |
| Runner.WaitUntilNext5Minute | src/signals/runner.py:219-234 | the wait is in (0, 300] seconds and ends on a boundary with minute ≡ 0 mod 5 and second 0 |
| Runner.SignalRunner.constructor | src/signals/runner.py:45-48 | the runner starts with the configured assets and not running |
| Runner.ComputeAssetResult | src/signals/runner.py:79-126 | the result is Computed from the snapshot table, signal time, CAS history, stdev and `now`: the period's deltas aggregated, the wallets with a delta classified with their own ε, their states counted (the four counts partition n_total), percentages, Exit Cluster, CAS, trend and a Dispersion Index in [0, 100] taken over the wallets' ratios, and the playbook applied to those core signals |
| Runner.SignalRunner.ComputeSignalForAsset | src/signals/runner.py:56-154 | raising before persisting stores nothing and gives none; otherwise the computation r is Computed from the snapshot table, signal time, history, stdev and `now` (aggregate → classify with per-wallet ε → counts → CAS, trend, Dispersion over the wallets' ratios, Exit Cluster → playbook) and its signals row is upserted; the contributors row is upserted only when n_total > 0, and when that upsert raises the signals row stays and the result is none, otherwise the result is r |
| Runner.SignalRunner.ComputeAllAssets | src/signals/runner.py:170-175 | after the loop over the configured assets, every asset that did not raise has a result and every result is the signals row stored this cycle (CycleSoFar); each result and each stored row is its asset's computation from the snapshots (CycleComputed); only rows of assets that did not raise before persisting are new |
| Runner.SignalRunner.RunSignalComputation | src/signals/runner.py:156-217 | a closed Signal Lock computes, persists and evaluates nothing; otherwise every asset that did not raise before persisting gets a signals row holding the computation Computed from this cycle's snapshots, signal time and `now`, no other asset gets a new row, every asset that did not raise has that computation as its result, and the alerts run on the results' signals |
| Runner.ComputationIsDetermined | src/signals/runner.py:79-126 | with a standard deviation that ignores order, the snapshot table, signal time, history and `now` determine the computation completely: two computations of the same inputs are equal |
| Runner.CycleStep | src/signals/runner.py:174-178 | computing one more asset keeps the cycle's invariant (results agree with the stored rows) |
| Runner.SignalRunner.AssetsDistinct | src/config.py:22 | the configured assets are distinct |
| Snapshots.GetSnapshotTimestamp | src/ingest/snapshots.py:14-22 | `now` floored to the minute: second 0, same hour and minute, at most `now` and less than 60 s before it |
| Snapshots.CountFetched | src/ingest/snapshots.py:94 | the succeeded count never exceeds the number of wallets |
| Snapshots.StatusFor | src/ingest/snapshots.py:157-163 | success iff coverage ≥ 95, partial iff 5 ≤ coverage < 95, failed iff below 5; only failed carries the coverage error |
| Snapshots.HealthStateFor | src/ingest/snapshots.py:287-297 | healthy iff success and not past the stale threshold; degraded iff partial with coverage ≥ 80 and not past it; failed is stale |
| Snapshots.LatestSuccess | src/ingest/snapshots.py:272-284 | present iff some run succeeded, and then it is the latest successful snapshot time |
| Snapshots.UpsertRun | src/ingest/snapshots.py:211-252 | a new snapshot time appends the run; an existing one is replaced in place by the new run, keeping only the stored expected counts |
| Snapshots.UpsertRunKeepsKey | src/ingest/snapshots.py:238-250 | the upsert keeps snapshot time a key of the runs table, and the run at that time has the new status |
| Snapshots.UpsertSnapshot | src/ingest/snapshots.py:118-139 | the row for (time, wallet, asset) is stored with the new position; rows of other keys are kept and none is invented |
| Snapshots.WalletRowsCount | src/ingest/snapshots.py:109-152 | a fetched wallet contributes one row per asset and a failed one none, all for that wallet and time |
| Snapshots.RowsCount | src/ingest/snapshots.py:109-152 | rows written = wallets fetched × number of assets |
| Snapshots.RaisesPersist | src/ingest/snapshots.py:177-192 | once staging raises, the whole run raises |
| Snapshots.IngestStore.PersistRunAndHealth | src/ingest/snapshots.py:168-170 | upserts the run and then the health row computed from the updated runs; snapshots are untouched |
| Snapshots.HealthAfter | src/ingest/snapshots.py:254-336 | the last success is the latest successful run, or this run's time when there is none; the state is HealthStateFor of the run's status and coverage and the age of that last success; coverage and error are the run's |
| Snapshots.UpsertHealth | src/ingest/snapshots.py:299-336 | the new health row is stored; rows of other times are kept and none is invented |
| Snapshots.IngestSnapshot | src/ingest/snapshots.py:33-192 | an empty universe fails with no rows; otherwise succeeded + failed = expected and coverage = 100 · succeeded / expected; a staging failure writes no rows and fails the run; otherwise rows = fetched × assets and the status follows coverage; the run and health are always upserted |
| Snapshots.StageRows | src/ingest/snapshots.py:108-152 | the loop raises iff the row builder raises, and otherwise stages exactly its rows |
| Snapshots.StageWallet | src/ingest/snapshots.py:110-150 | one wallet's rows over all assets, or the same raise |
| Snapshots.WalletRowsRaisePersist | src/ingest/snapshots.py:177-192 | a raise within a wallet's assets raises for the whole wallet |
| Snapshots.CoverageBounds | src/ingest/snapshots.py:94-99 | coverage lies in [0,100] |
| Sorting.SortDesc | src/ingest/universe.py:67 | the result is sorted by key descending and is a permutation of the input |
| SystemStale.CheckSystemStale | src/alerts/system_stale.py:17-52 | no row or no last success is stale with no minutes; otherwise stale iff more than 10 minutes passed, and only then the whole minutes m of the age are reported: m ≥ 10 and 60·m ≤ age < 60·(m + 1) |
| SystemStale.IsSystemStaleActive | src/alerts/system_stale.py:116-126 | false without a state row; otherwise the row's is_active |
| SystemStale.StaleEffect | src/alerts/system_stale.py:55-113 | fires iff stale and inactive, appending one critical, unsuppressed alert with no cooldown; afterwards active iff stale; no change when the flag already matches |
| SystemStale.EvaluateSystemStaleAlert | src/alerts/system_stale.py:55-113 | the store and the result are those of StaleEffect |
| SystemStale.FireFollowsRecovery | src/alerts/system_stale.py:81-113 | two consecutive evaluations fire only if the first found ingestion fresh, so two fires are separated by a recovery |
| SystemStale.StaleBoundary | src/alerts/system_stale.py:47-52 | exactly 600 s is not stale; 601 s is stale with 10 minutes reported |
| Throttling.CheckCooldown | src/alerts/throttling.py:12-55 | allowed iff there is no row, or no cooldown, or now ≥ cooldown_until |
| Throttling.DailyCount | src/alerts/throttling.py:77-91 | zero iff no alert of the asset from the last 24 hours is unsuppressed, and never more than the number of alerts |
| Throttling.CheckDailyLimit | src/alerts/throttling.py:58-91 | allowed iff fewer than 4 counted alerts |
| Throttling.ShouldFireAlert | src/alerts/throttling.py:94-115 | fire iff the cooldown and the daily limit both allow |
| Throttling.GetCooldownDuration | src/alerts/throttling.py:118-134 | 30 minutes for regime_change, 60 for exit_cluster, none for every other type |
| Throttling.FiringStaysWithinDailyLimit | src/alerts/throttling.py:94-115 | an alert fired under throttling leaves at most 4 counted alerts |
| Throttling.SuppressedAlertsDoNotCount | src/alerts/throttling.py:77-91 | appending a suppressed alert does not change the count |
| Throttling.SystemAlertsDoNotCount | src/alerts/persistence.py:64 | 'SYSTEM' alerts are stored with a null asset and never count toward any asset's limit |
| Throttling.CooldownAfterUpdate | src/alerts/throttling.py:44-55 | after a state update with m minutes of cooldown at t0, the key is blocked exactly before t0 + m minutes; without a cooldown it is never blocked |
| Universe.ParsedWallets | src/ingest/universe.py:60-64 | every parsed wallet comes from some row, and every row that parses is kept, so unparseable rows are dropped |
| Universe.ParseRows | src/ingest/universe.py:60-64 | the loop yields the parsed wallets |
| Universe.TopWallets | src/ingest/universe.py:67-68 | min(n, parsed) wallets, sorted by month PnL descending, a sub-multiset of the parsed ones |
| Universe.DroppedWalletsRankBelow | src/ingest/universe.py:67-68 | a parsed wallet left out has no higher month PnL than any kept one |
| Universe.MinRequired | src/ingest/universe.py:73 | the minimum is ⌊0.9 · size⌋ |
| Universe.DefaultMinRequired | src/ingest/universe.py:73 | for the default universe of 200 the minimum is 180 |
| Universe.UniverseDiff | src/ingest/universe.py:90-99 | entered ∩ previous = ∅, exited ∩ new = ∅, new = stayed ∪ entered, and \|new\| + \|exited\| = \|previous\| + \|entered\| |
| Universe.MemberRows | src/ingest/universe.py:190-210 | one member row per wallet, in order, with rank i + 1 and the run id |
| Universe.CurrentRows | src/ingest/universe.py:212-237 | one current row per wallet, in order, with rank i + 1 and the refresh time |
| Universe.RanksFollowPnl | src/ingest/universe.py:190-237 | over sorted wallets a better rank never has a smaller month PnL, and the current ids are exactly the wallets' ids |
| Universe.UniverseStore.PersistRunMetadata | src/ingest/universe.py:241-265 | appends the run row only |
| Universe.UniverseStore.PersistUniverse | src/ingest/universe.py:151-239 | appends the run, appends the member rows under its id, and replaces the current universe wholesale |
| Universe.UniverseRefresher.constructor | src/ingest/universe.py:17-20 | the universe size is the configured 200 |
| Universe.UniverseRefresher.RefreshUniverse | src/ingest/universe.py:22-132 | a failed fetch or fewer than the minimum wallets records a failed run and keeps the current universe; otherwise it persists the top wallets, counts entered and exited ids against the previous universe, and returns success |
| UiHealth.SnapshotAgeMinutes | src/ui/health.py:44-48 | known iff there is a last success; for a non-negative age it is the whole minutes truncated |
| UiHealth.ComputeHealthState | src/ui/health.py:12-76 | STALE iff no row, System Stale active, unknown age, age > 10 or coverage < 80; HEALTHY iff none of those and age ≤ 2 with coverage ≥ 90; DEGRADED otherwise |
| UiHealth.TruncatedAgeBoundary | src/ui/health.py:46-71 | 10 min 59 s is DEGRADED and 11 min is STALE; 2 min 59 s is HEALTHY |
| UiHealth.FresherAndFullerNeverWorse | src/ui/health.py:64-76 | a later last success and a higher coverage never give a worse badge |
| UiHealth.ConsistentWithSystemStale | src/ui/health.py:64-65 | once System Stale is evaluated, a badge other than STALE implies ingestion is fresh |
| UiHealth.BadgeLagsStaleCheck | src/ui/health.py:67 | at 10 min 30 s the badge is DEGRADED although the System Stale check already finds ingestion stale |
| Charts.TrendArrow | src/ui/charts.py:109-124 | up iff "rising", down iff "falling", right for flat and for any unknown label |
| Charts.ArrowsDistinguishTrends | src/ui/charts.py:119-124 | distinct trends get distinct arrows, and an unknown label shows as flat |
| Charts.DispersionState | src/ui/charts.py:127-142 | Low iff < 40, Medium iff in [40,60), High iff ≥ 60 |
| Charts.ExitState | src/ui/charts.py:145-160 | Low iff < 16, Medium iff in [16,25], High iff > 25 |
| Charts.BandsMatchPlaybook | src/ui/charts.py:137-160 | a High band forces No-trade/Defensive, Normal risk needs both bands Low, and a High exit band is the Exit Cluster trigger level |
| Charts.PlaybookColor | src/ui/charts.py:163-178 | green iff Long-only, red iff Short-only, gray otherwise |
| Charts.PlaybookColorsDistinct | src/ui/charts.py:173-178 | each playbook has its own colour, and an unknown label gets No-trade's gray |
| PositioningPanel.FormatExposure | src/ui/components/positioning_panel.py:7-26 | "+" iff exposure ≥ 0 and no sign otherwise; suffix M iff \|x\| ≥ 1,000,000, K iff 1,000 ≤ \|x\| < 1,000,000, none below; scaled × unit = \|x\| |
| PositioningPanel.NegativeLosesSign | src/ui/components/positioning_panel.py:18-26 | a negative exposure is labelled like its opposite, only without "+" |
| PositioningPanel.ShortExposureExample | src/ui/components/positioning_panel.py:16 | −500,000 BTC reads 500.0K BTC with no minus sign, unlike the docstring's example |
| PositioningPanel.GetPositioningColor | src/ui/components/positioning_panel.py:29-60 | none iff there are no wallets (the division raises); green iff not mostly flat and long > 60; red iff not mostly flat, long < 40 and short > 60; gray otherwise |
| PositioningPanel.ComplementarySharesDecideColour | src/ui/components/positioning_panel.py:49-60 | when long + short = 100, the colour is decided by the long share alone |

## Left out

- HTTP, retries and the concurrent fan-out of fetches: the leaderboard and clearinghouse responses are parameters (`None` for a failed fetch).
- Scheduling: `run_forever`, the sleep loops and the snapshot fetch loop are not modelled; `WaitUntilNext5Minute` models only the wait computation.
- Wall-clock reads: `now` is a parameter in integer seconds, and microseconds are below the model's resolution. `IngestSnapshot` takes a second time, `clock`, for the health evaluation.
- Run durations, log output and error message text: errors are datatype constructors, not strings.
- Database exceptions inside the alert evaluators and the universe persistence are not modelled; store operations always succeed. A snapshot run that raises while staging rows is modelled.
- Primary-key conflicts between duplicate wallet ids in a leaderboard are not modelled.
- The universe run id is the run's position in the runs table, not a database sequence.
- `statistics.stdev` is a parameter; it is only required to be non-negative, and, for the order-independence of the Dispersion Index, not to depend on the order of its inputs.
- The historical CAS values come from a query and are a parameter of the trend.
- The runner's exception handling: where an asset's computation raises is the `failure` input (before persisting, or in the contributors upsert after the signals row was committed); the causes of the exceptions are not modelled.
- Float arithmetic: reals are exact. Python `float()` on strings accepts only plain decimals; exponents, `inf`, `nan`, whitespace and underscores are treated as failures.
- Universe.MinRequired: does not model the rounding of `size * 0.9` in binary floating point. It is exact for the default size of 200.
- Sorting.SortDesc: stability among equal month PnLs is not stated.
- Aggregator.FetchSnapshotsForWindow: wallet ids are ordered by code point; a database collation that orders mixed-case ids differently is not modelled.
- HyperliquidClient.DictOfPairs: an item that is a two-key JSON object is treated as raising, whereas `dict()` would unpack its two keys; the model's objects do not keep key order.
- SQL `ORDER BY` ties, and the row order of result sets other than those the model sorts, are not modelled.
- Aggregator.Fetch24hHistory: states only that every size of the 24-hour window is in the history, not that nothing else is, nor their newest-first order (the median does not depend on order).
- SignalCore.ComputeDispersionIndex: requires every ε to be positive. The classifier guarantees this, and otherwise a zero ε with a zero previous size would divide by zero.
- The alert evaluation uses one `now` per cycle.
- The daily-limit query names a `timestamp` column. It is modelled as the alert time.
- Defaults of `alert_state` columns other than those the code writes are not modelled.
- PositioningPanel.FormatExposure: the one-decimal text formatting is not modelled, only its parts (sign, scaled value, suffix, asset).
- The UI's health dictionary beyond the badge and the age is not modelled.
- Streamlit rendering is not modelled.
- Environment overrides of the settings are not modelled.
