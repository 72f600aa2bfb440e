/**
 * The 5-minute signal cycle: behind the Signal Lock, each asset's pipeline
 * (aggregate, classify, count, score, playbook, persist), then the alerts.
 */
module Runner {
  import opened Wrappers
  import opened Clock
  import opened Config
  import opened Snapshots
  import opened Aggregator
  import Classifier
  import opened SignalCore
  import opened Playbook
  import opened AlertPersistence
  import opened Evaluator

  /** A row of `signals`, keyed by (signal time, asset). */
  datatype SignalRow = SignalRow(signals: FullSignals, walletCount: nat, missingCount: nat)

  /** A row of `signal_contributors`, keyed by (signal time, asset). */
  datatype ContributorRow = ContributorRow(percentages: Classifier.Percentages, counts: Classifier.Counts)

  /** The signal tables; both upserts replace the whole row of their key. */
  class SignalTables {
    var signals: map<(int, string), SignalRow>
    var contributors: map<(int, string), ContributorRow>

    constructor()
      ensures signals == map[] && contributors == map[]
    {
      signals := map[];
      contributors := map[];
    }

    /** `persist_signal`: the wallet count stored is the number of classified wallets. */
    method PersistSignal(signalTs: int, asset: string, full: FullSignals, counts: Classifier.Counts, missingCount: nat)
      modifies this
      ensures signals == old(signals)[(signalTs, asset) := SignalRow(full, counts.nTotal, missingCount)]
      ensures contributors == old(contributors)
    {
      signals := signals[(signalTs, asset) := SignalRow(full, counts.nTotal, missingCount)];
    }

    /** `persist_contributors`. */
    method PersistContributors(signalTs: int, asset: string, counts: Classifier.Counts, percentages: Classifier.Percentages)
      modifies this
      ensures contributors == old(contributors)[(signalTs, asset) := ContributorRow(percentages, counts)]
      ensures signals == old(signals)
    {
      contributors := contributors[(signalTs, asset) := ContributorRow(percentages, counts)];
    }
  }

  /** What one asset's computation returns. */
  datatype AssetResult = AssetResult(
    asset: string,
    signals: FullSignals,
    counts: Classifier.Counts,
    percentages: Classifier.Percentages,
    walletCount: nat,
    missingCount: nat)

  /** The signals of the computed assets, by asset (a later result for the same asset wins). */
  function SignalsByAsset(results: seq<AssetResult>): (m: map<string, FullSignals>)
    ensures m.Keys == set r | r in results :: r.asset
    decreases |results|
  {
    if results == [] then map[]
    else
      var init := results[..|results| - 1];
      var last := results[|results| - 1];
      assert forall r :: r in results <==> r in init || r == last;
      SignalsByAsset(init)[last.asset := last.signals]
  }

  /**
   * Seconds to wait for the next 5-minute boundary: the minute is rounded
   * up to the next multiple of 5 and the seconds are zeroed.
   */
  function WaitUntilNext5Minute(now: int): (wait: int)
    ensures 0 < wait <= 300
    ensures MinuteOf(now + wait) % 5 == 0 && SecondOf(now + wait) == 0
  {
    var minutesToNext := 5 - MinuteOf(now) % 5;
    var nextBoundary := now + minutesToNext * SECONDS_PER_MINUTE - SecondOf(now);
    BoundaryFields(now, minutesToNext);
    nextBoundary - now
  }

  /** The timestamp `minutes` past the start of `now`'s minute has the expected minute and second fields. */
  lemma BoundaryFields(now: int, minutes: int)
    requires minutes == 5 - MinuteOf(now) % 5
    ensures MinuteOf(now + minutes * 60 - SecondOf(now)) % 5 == 0
    ensures SecondOf(now + minutes * 60 - SecondOf(now)) == 0
  {
    var h, m, s := HourOf(now), MinuteOf(now), SecondOf(now);
    Decompose(now);
    if m + minutes < 60 {
      assert now + minutes * 60 - s == h * 3600 + (m + minutes) * 60 + 0;
      Compose(h, m + minutes, 0);
    } else {
      assert m + minutes == 60;
      assert now + minutes * 60 - s == (h + 1) * 3600 + 0 * 60 + 0;
      Compose(h + 1, 0, 0);
    }
  }

  /**
   * Where an asset's computation raises, if it does: before anything is
   * stored (aggregation, classification, scoring, or the signals upsert,
   * which rolls back), or in the contributors upsert, which runs in its own
   * transaction after the signals row was committed.
   */
  datatype Failure = NoFailure | BeforePersist | InContributors

  /**
   * `di` is the Dispersion Index of the classified wallets: computed over a
   * list holding each of their clamped ratios as often as wallets have it.
   */
  ghost predicate DispersionOfWallets(di: real, c: map<string, Classifier.Classification>, stdev: seq<real> -> real) {
    && PositiveEpsilons(c)
    && (forall xs :: stdev(xs) >= 0.0)
    && exists ratios :: RatiosOf(c, c.Keys, ratios) && di == DispersionOf(ratios, stdev)
  }

  /**
   * `r` is what computing `asset` for the period ending at `signalTs`
   * returns: the snapshots aggregated into per-wallet deltas, the wallets
   * with a delta classified, their states counted, the core signals scored
   * from the counts, the wallets' ratios and the asset's CAS history, and
   * the playbook applied to them.
   */
  ghost predicate Computed(r: AssetResult, snapshots: seq<SnapshotRow>, signalTs: int, asset: string,
                           historicalCas: seq<real>, stdev: seq<real> -> real, now: int)
  {
    var deltas := PeriodDeltas(snapshots, signalTs, asset);
    var c := Classifier.ClassifiedWallets(deltas, asset, snapshots, now);
    && r.asset == asset
    && r.walletCount == |ValidWallets(deltas)|
    && r.missingCount == |MissingWallets(deltas)|
    && r.counts.nAdderLong == |Classifier.InState(c, Classifier.AdderLong)|
    && r.counts.nAdderShort == |Classifier.InState(c, Classifier.AdderShort)|
    && r.counts.nReducer == |Classifier.InState(c, Classifier.Reducer)|
    && r.counts.nFlat == |Classifier.InState(c, Classifier.Flat)|
    && r.counts.nTotal == |c| == r.walletCount
    && r.counts.nAdderLong + r.counts.nAdderShort + r.counts.nReducer + r.counts.nFlat == r.counts.nTotal
    && r.percentages == Classifier.GetWalletPercentages(r.counts)
    && r.signals.core.exitClusterScore == ComputeExitClusterScore(r.counts.nReducer, r.counts.nTotal)
    && r.signals.core.alignmentScore ==
         ComputeCas(r.counts.nAdderLong, r.counts.nAdderShort, r.counts.nTotal, r.signals.core.exitClusterScore)
    && r.signals.core.alignmentTrend == ComputeAlignmentTrend(r.signals.core.alignmentScore, historicalCas)
    && 0.0 <= r.signals.core.dispersionIndex <= 100.0
    && DispersionOfWallets(r.signals.core.dispersionIndex, c, stdev)
    && r.signals == ApplyPlaybookLogic(r.signals.core)
  }

  /**
   * The computation is a function of its inputs: two results computed from
   * the same snapshots, time, CAS history and deviation are equal, whatever
   * order the wallets' ratios were collected in.
   */
  lemma ComputationIsDetermined(r1: AssetResult, r2: AssetResult, snapshots: seq<SnapshotRow>, signalTs: int, asset: string,
                                historicalCas: seq<real>, stdev: seq<real> -> real, now: int)
    requires forall xs, ys :: multiset(xs) == multiset(ys) ==> stdev(xs) == stdev(ys)
    requires Computed(r1, snapshots, signalTs, asset, historicalCas, stdev, now)
    requires Computed(r2, snapshots, signalTs, asset, historicalCas, stdev, now)
    ensures r1 == r2
  {
    var c := Classifier.ClassifiedWallets(PeriodDeltas(snapshots, signalTs, asset), asset, snapshots, now);
    var ratios1 :| RatiosOf(c, c.Keys, ratios1) && r1.signals.core.dispersionIndex == DispersionOf(ratios1, stdev);
    var ratios2 :| RatiosOf(c, c.Keys, ratios2) && r2.signals.core.dispersionIndex == DispersionOf(ratios2, stdev);
    DispersionIndependentOfOrder(c, ratios1, ratios2, stdev);
    assert r1.counts == r2.counts;
    assert r1.signals.core == r2.signals.core;
  }

  /** `row` is the signals row that computing `asset` for the period ending at `signalTs` stores. */
  ghost predicate StoresComputation(row: SignalRow, snapshots: seq<SnapshotRow>, signalTs: int, asset: string,
                                    historicalCas: seq<real>, stdev: seq<real> -> real, now: int)
  {
    exists r: AssetResult ::
      Computed(r, snapshots, signalTs, asset, historicalCas, stdev, now) && row == SignalRow(r.signals, r.counts.nTotal, r.missingCount)
  }

  /** Every result of the cycle so far, and every signals row it stored, is its asset's computation. */
  ghost predicate CycleComputed(signals: map<(int, string), SignalRow>, results: seq<AssetResult>, done: seq<string>,
                                failure: string -> Failure, snapshots: seq<SnapshotRow>, signalTs: int,
                                historicalCas: string -> seq<real>, stdev: seq<real> -> real, now: int)
  {
    && (forall i :: 0 <= i < |results| ==>
          Computed(results[i], snapshots, signalTs, results[i].asset, historicalCas(results[i].asset), stdev, now))
    && (forall a :: a in done && failure(a) != BeforePersist ==>
          && (signalTs, a) in signals
          && StoresComputation(signals[(signalTs, a)], snapshots, signalTs, a, historicalCas(a), stdev, now))
  }

  /** Computing one more asset keeps both cycle invariants. */
  lemma CycleAdvance(signals0: map<(int, string), SignalRow>, before: map<(int, string), SignalRow>,
                     after: map<(int, string), SignalRow>, results: seq<AssetResult>, done: seq<string>, asset: string,
                     failure: string -> Failure, snapshots: seq<SnapshotRow>, signalTs: int,
                     historicalCas: string -> seq<real>, stdev: seq<real> -> real, now: int,
                     result: Option<AssetResult>, r: AssetResult)
    requires CycleSoFar(signals0, before, results, done, failure, signalTs)
    requires CycleComputed(before, results, done, failure, snapshots, signalTs, historicalCas, stdev, now)
    requires asset !in done
    requires failure(asset) == BeforePersist ==> result.None? && after == before
    requires failure(asset) == NoFailure ==> result.Some?
    requires failure(asset) != BeforePersist ==>
               && Computed(r, snapshots, signalTs, asset, historicalCas(asset), stdev, now)
               && after == before[(signalTs, asset) := SignalRow(r.signals, r.counts.nTotal, r.missingCount)]
               && (if failure(asset) == InContributors && r.counts.nTotal > 0 then result.None? else result == Some(r))
    ensures result.Some? ==>
              && CycleSoFar(signals0, after, results + [result.value], done + [asset], failure, signalTs)
              && CycleComputed(after, results + [result.value], done + [asset], failure, snapshots, signalTs, historicalCas, stdev, now)
    ensures result.None? ==>
              && CycleSoFar(signals0, after, results, done + [asset], failure, signalTs)
              && CycleComputed(after, results, done + [asset], failure, snapshots, signalTs, historicalCas, stdev, now)
  {
    if failure(asset) != BeforePersist {
      assert r.asset == asset;
    }
    CycleStep(signals0, before, after, results, done, asset, failure, signalTs, result, r);
    CycleComputedStep(before, after, results, done, asset, failure, snapshots, signalTs, historicalCas, stdev, now, result, r);
  }

  /** Computing one more asset keeps every result and stored row a computation. */
  lemma CycleComputedStep(before: map<(int, string), SignalRow>, after: map<(int, string), SignalRow>,
                          results: seq<AssetResult>, done: seq<string>, asset: string, failure: string -> Failure,
                          snapshots: seq<SnapshotRow>, signalTs: int, historicalCas: string -> seq<real>,
                          stdev: seq<real> -> real, now: int, result: Option<AssetResult>, r: AssetResult)
    requires CycleComputed(before, results, done, failure, snapshots, signalTs, historicalCas, stdev, now)
    requires asset !in done
    requires failure(asset) == BeforePersist ==> result.None? && after == before
    requires failure(asset) != BeforePersist ==>
               && Computed(r, snapshots, signalTs, asset, historicalCas(asset), stdev, now)
               && after == before[(signalTs, asset) := SignalRow(r.signals, r.counts.nTotal, r.missingCount)]
               && (result.None? || result == Some(r))
    ensures result.Some? ==>
              CycleComputed(after, results + [result.value], done + [asset], failure, snapshots, signalTs, historicalCas, stdev, now)
    ensures result.None? ==>
              CycleComputed(after, results, done + [asset], failure, snapshots, signalTs, historicalCas, stdev, now)
  {
    if result.Some? {
      assert r.asset == asset;
      ResultsComputedStep(results, result.value, snapshots, signalTs, historicalCas, stdev, now);
    }
    RowsComputedStep(before, after, done, asset, failure, snapshots, signalTs, historicalCas, stdev, now, r);
  }

  /** Appending a computed result keeps every result a computation. */
  lemma ResultsComputedStep(results: seq<AssetResult>, x: AssetResult, snapshots: seq<SnapshotRow>,
                            signalTs: int, historicalCas: string -> seq<real>, stdev: seq<real> -> real, now: int)
    requires forall i :: 0 <= i < |results| ==>
               Computed(results[i], snapshots, signalTs, results[i].asset, historicalCas(results[i].asset), stdev, now)
    requires Computed(x, snapshots, signalTs, x.asset, historicalCas(x.asset), stdev, now)
    ensures forall i :: 0 <= i < |results + [x]| ==>
              Computed((results + [x])[i], snapshots, signalTs, (results + [x])[i].asset, historicalCas((results + [x])[i].asset), stdev, now)
  {
    AppendKeeps(results, x, (y: AssetResult) => Computed(y, snapshots, signalTs, y.asset, historicalCas(y.asset), stdev, now));
  }

  /** Appending an element that satisfies `P` to a sequence whose elements all do keeps them all satisfying it. */
  lemma AppendKeeps<T>(xs: seq<T>, x: T, P: T -> bool)
    requires forall i :: 0 <= i < |xs| ==> P(xs[i])
    requires P(x)
    ensures forall i :: 0 <= i < |xs + [x]| ==> P((xs + [x])[i])
  {
    forall i | 0 <= i < |xs + [x]|
      ensures P((xs + [x])[i])
    {
      if i < |xs| {
        assert (xs + [x])[i] == xs[i];
      }
    }
  }

  /** Storing one more asset's computed row keeps every stored row a computation. */
  lemma RowsComputedStep(before: map<(int, string), SignalRow>, after: map<(int, string), SignalRow>,
                         done: seq<string>, asset: string, failure: string -> Failure,
                         snapshots: seq<SnapshotRow>, signalTs: int, historicalCas: string -> seq<real>,
                         stdev: seq<real> -> real, now: int, r: AssetResult)
    requires forall a :: a in done && failure(a) != BeforePersist ==>
               && (signalTs, a) in before
               && StoresComputation(before[(signalTs, a)], snapshots, signalTs, a, historicalCas(a), stdev, now)
    requires failure(asset) == BeforePersist ==> after == before
    requires failure(asset) != BeforePersist ==>
               && Computed(r, snapshots, signalTs, asset, historicalCas(asset), stdev, now)
               && after == before[(signalTs, asset) := SignalRow(r.signals, r.counts.nTotal, r.missingCount)]
    ensures forall a :: a in done + [asset] && failure(a) != BeforePersist ==>
              && (signalTs, a) in after
              && StoresComputation(after[(signalTs, a)], snapshots, signalTs, a, historicalCas(a), stdev, now)
  {
    if failure(asset) != BeforePersist {
      StoresOwnComputation(r, snapshots, signalTs, asset, historicalCas(asset), stdev, now);
    }
    StoredRowsKeep(before, after, done, asset, failure, signalTs, SignalRow(r.signals, r.counts.nTotal, r.missingCount),
                   (a: string, row: SignalRow) => StoresComputation(row, snapshots, signalTs, a, historicalCas(a), stdev, now));
  }

  /**
   * Storing one more asset's row, which satisfies `P`, keeps every row
   * stored this cycle satisfying `P`.
   */
  lemma StoredRowsKeep(before: map<(int, string), SignalRow>, after: map<(int, string), SignalRow>,
                       done: seq<string>, asset: string, failure: string -> Failure, signalTs: int, row: SignalRow,
                       P: (string, SignalRow) -> bool)
    requires forall a :: a in done && failure(a) != BeforePersist ==> (signalTs, a) in before && P(a, before[(signalTs, a)])
    requires failure(asset) == BeforePersist ==> after == before
    requires failure(asset) != BeforePersist ==> P(asset, row) && after == before[(signalTs, asset) := row]
    ensures forall a :: a in done + [asset] && failure(a) != BeforePersist ==> (signalTs, a) in after && P(a, after[(signalTs, a)])
  {
    forall a | a in done + [asset] && failure(a) != BeforePersist
      ensures (signalTs, a) in after && P(a, after[(signalTs, a)])
    {
      if a != asset {
        assert a in done;
      }
    }
  }

  /** The row built from a computation stores that computation. */
  lemma StoresOwnComputation(r: AssetResult, snapshots: seq<SnapshotRow>, signalTs: int, asset: string,
                             historicalCas: seq<real>, stdev: seq<real> -> real, now: int)
    requires Computed(r, snapshots, signalTs, asset, historicalCas, stdev, now)
    ensures StoresComputation(SignalRow(r.signals, r.counts.nTotal, r.missingCount), snapshots, signalTs, asset, historicalCas, stdev, now)
  {
  }

  /**
   * The cycle so far, over the assets `done`: every asset that did not raise
   * has a result, every result is the signals row stored for this cycle of
   * an asset that did not raise before persisting, an asset whose
   * contributors upsert raised has a result exactly when no wallet was
   * classified, and only these assets' rows were written.
   */
  ghost predicate CycleSoFar(signals0: map<(int, string), SignalRow>, signals: map<(int, string), SignalRow>,
                             results: seq<AssetResult>, done: seq<string>, failure: string -> Failure, signalTs: int)
  {
    && (forall a :: a in done && failure(a) == NoFailure ==> a in SignalsByAsset(results))
    && (forall a :: a in SignalsByAsset(results) ==>
          && a in done && failure(a) != BeforePersist
          && (signalTs, a) in signals
          && SignalsByAsset(results)[a] == signals[(signalTs, a)].signals)
    && (forall a :: a in done && failure(a) != BeforePersist ==> (signalTs, a) in signals)
    && (forall a :: a in done && failure(a) == InContributors ==>
          (a in SignalsByAsset(results) <==> signals[(signalTs, a)].walletCount == 0))
    && (forall k :: k in signals && k !in signals0 ==> k.0 == signalTs && k.1 in done && failure(k.1) != BeforePersist)
  }

  /** Computing one more asset, not computed before, keeps the cycle's invariant. */
  lemma CycleStep(signals0: map<(int, string), SignalRow>, before: map<(int, string), SignalRow>,
                  after: map<(int, string), SignalRow>, results: seq<AssetResult>, done: seq<string>, asset: string,
                  failure: string -> Failure, signalTs: int, result: Option<AssetResult>, r: AssetResult)
    requires CycleSoFar(signals0, before, results, done, failure, signalTs)
    requires asset !in done
    requires failure(asset) == BeforePersist ==> result.None? && after == before
    requires failure(asset) == NoFailure ==> result.Some?
    requires failure(asset) != BeforePersist ==>
               && r.asset == asset
               && after == before[(signalTs, asset) := SignalRow(r.signals, r.counts.nTotal, r.missingCount)]
               && (if failure(asset) == InContributors && r.counts.nTotal > 0 then result.None? else result == Some(r))
    ensures result.Some? ==> CycleSoFar(signals0, after, results + [result.value], done + [asset], failure, signalTs)
    ensures result.None? ==> CycleSoFar(signals0, after, results, done + [asset], failure, signalTs)
  {
    if result.Some? {
      CycleStepComputed(signals0, before, after, results, done, asset, failure, signalTs, result.value);
    } else if failure(asset) == BeforePersist {
      assert forall a :: a in done + [asset] <==> a in done || a == asset;
    } else {
      CycleStepRaised(signals0, before, after, results, done, asset, failure, signalTs, r);
    }
  }

  lemma CycleStepComputed(signals0: map<(int, string), SignalRow>, before: map<(int, string), SignalRow>,
                          after: map<(int, string), SignalRow>, results: seq<AssetResult>, done: seq<string>, asset: string,
                          failure: string -> Failure, signalTs: int, r: AssetResult)
    requires CycleSoFar(signals0, before, results, done, failure, signalTs)
    requires asset !in done && failure(asset) != BeforePersist && r.asset == asset
    requires after == before[(signalTs, asset) := SignalRow(r.signals, r.counts.nTotal, r.missingCount)]
    requires failure(asset) == InContributors ==> r.counts.nTotal == 0
    ensures CycleSoFar(signals0, after, results + [r], done + [asset], failure, signalTs)
  {
    var results' := results + [r];
    assert results'[..|results'| - 1] == results;
    assert SignalsByAsset(results') == SignalsByAsset(results)[asset := r.signals];
    assert forall a :: a in done + [asset] <==> a in done || a == asset;
  }

  lemma CycleStepRaised(signals0: map<(int, string), SignalRow>, before: map<(int, string), SignalRow>,
                        after: map<(int, string), SignalRow>, results: seq<AssetResult>, done: seq<string>, asset: string,
                        failure: string -> Failure, signalTs: int, r: AssetResult)
    requires CycleSoFar(signals0, before, results, done, failure, signalTs)
    requires asset !in done && failure(asset) == InContributors && r.asset == asset && r.counts.nTotal > 0
    requires after == before[(signalTs, asset) := SignalRow(r.signals, r.counts.nTotal, r.missingCount)]
    ensures CycleSoFar(signals0, after, results, done + [asset], failure, signalTs)
  {
    assert forall a :: a in done + [asset] <==> a in done || a == asset;
    assert asset !in SignalsByAsset(results);
  }

  /**
   * Steps 1 to 4 of `compute_signal_for_asset`: aggregate the period's
   * snapshots, classify the wallets with a delta, count them, score the core
   * signals and apply the playbook.
   */
  method ComputeAssetResult(snapshots: seq<SnapshotRow>, signalTs: int, asset: string, historicalCas: seq<real>,
                            stdev: seq<real> -> real, now: int)
    returns (r: AssetResult)
    requires forall xs :: stdev(xs) >= 0.0
    ensures Computed(r, snapshots, signalTs, asset, historicalCas, stdev, now)
  {
    var agg := AggregateForSignalPeriod(snapshots, signalTs, asset);
    var classifications := Classifier.ClassifyWallets(agg.deltas, asset, snapshots, now);
    var counts := Classifier.AggregateClassifications(classifications);
    var percentages := Classifier.GetWalletPercentages(counts);
    assert PositiveEpsilons(classifications) by {
      forall w | w in classifications
        ensures classifications[w].epsilon > 0.0
      {
        assert classifications[w].epsilon >= Classifier.EpsilonAbsolute(asset);
      }
    }
    var core;
    ghost var ratios;
    core, ratios := ComputeAllSignals(counts, classifications, historicalCas, stdev);
    assert DispersionOfWallets(core.dispersionIndex, classifications, stdev) by {
      assert RatiosOf(classifications, classifications.Keys, ratios) && core.dispersionIndex == DispersionOf(ratios, stdev);
    }
    var full := ApplyPlaybookLogic(core);
    r := AssetResult(asset, full, counts, percentages, agg.walletCount, agg.missingCount);
  }

  /** The signal runner: the assets it computes, in order, and its loop flag. */
  class SignalRunner {
    const assets: seq<string> := ASSETS
    var running: bool

    constructor()
      ensures assets == ASSETS && !running
    {
      running := false;
    }

    /**
     * `compute_signal_for_asset`. A computation that raises before
     * persisting returns `None` with nothing stored. Otherwise the signals
     * row is upserted, and the contributors row only when wallets were
     * classified; if that second upsert raises, the signals row stays and
     * the result is `None`. The wallet coverage is only logged and does not
     * change the result.
     */
    method ComputeSignalForAsset(tables: SignalTables, snapshots: seq<SnapshotRow>, signalTs: int, asset: string,
                                 historicalCas: seq<real>, stdev: seq<real> -> real, failure: Failure, now: int)
      returns (result: Option<AssetResult>, ghost r: AssetResult)
      requires forall xs :: stdev(xs) >= 0.0
      modifies tables
      ensures failure == BeforePersist ==>
                result.None? && tables.signals == old(tables.signals) && tables.contributors == old(tables.contributors)
      ensures failure == NoFailure ==> result.Some?
      ensures failure != BeforePersist ==>
                  && Computed(r, snapshots, signalTs, asset, historicalCas, stdev, now)
                  && tables.signals == old(tables.signals)[(signalTs, asset) := SignalRow(r.signals, r.counts.nTotal, r.missingCount)]
                  && if failure == InContributors && r.counts.nTotal > 0 then
                       result.None? && tables.contributors == old(tables.contributors)
                     else
                       && result == Some(r)
                       && tables.contributors ==
                            (if r.counts.nTotal > 0 then old(tables.contributors)[(signalTs, asset) := ContributorRow(r.percentages, r.counts)]
                             else old(tables.contributors))
    {
      r := AssetResult(asset, FullSignals(CoreSignals(0.0, Flat, 0.0, 0.0), NoTrade, Defensive, false, false),
                       Classifier.Counts(0, 0, 0, 0, 0), Classifier.Percentages(0.0, 0.0, 0.0, 0.0), 0, 0);
      if failure == BeforePersist {
        result := None;
        return;
      }
      var computed := ComputeAssetResult(snapshots, signalTs, asset, historicalCas, stdev, now);
      r := computed;
      tables.PersistSignal(signalTs, asset, computed.signals, computed.counts, computed.missingCount);
      if computed.counts.nTotal > 0 {
        if failure == InContributors {
          result := None;
          return;
        }
        tables.PersistContributors(signalTs, asset, computed.counts, computed.percentages);
      }
      result := Some(computed);
    }

    /**
     * `run_signal_computation`. With the Signal Lock closed nothing is
     * computed, persisted or evaluated (`None`). Otherwise every asset is
     * computed and persisted in order, and then the alerts are evaluated
     * with the signals of the assets whose computation returned a result,
     * which are the signals stored for this cycle.
     */
    method RunSignalComputation(tables: SignalTables, alerts: AlertStore, snapshots: seq<SnapshotRow>,
                                health: seq<HealthRow>, historicalCas: string -> seq<real>,
                                stdev: seq<real> -> real, failure: string -> Failure, now: int)
      returns (alertResults: Option<map<string, seq<string>>>)
      requires forall xs :: stdev(xs) >= 0.0
      modifies tables, alerts
      ensures !CheckSignalLock(LatestHealth(health)) ==>
                alertResults.None? && tables.signals == old(tables.signals)
                && tables.contributors == old(tables.contributors) && alerts.Tables() == old(alerts.Tables())
      ensures CheckSignalLock(LatestHealth(health)) ==> alertResults.Some?
      ensures forall a :: a in assets && failure(a) != BeforePersist && alertResults.Some? ==>
                && (GetSignalTimestamp(now), a) in tables.signals
                && StoresComputation(tables.signals[(GetSignalTimestamp(now), a)], snapshots, GetSignalTimestamp(now), a,
                                     historicalCas(a), stdev, now)
      ensures forall k :: k in tables.signals && k !in old(tables.signals) ==>
                k.0 == GetSignalTimestamp(now) && k.1 in assets && failure(k.1) != BeforePersist
      ensures alertResults.Some? ==>
                exists results: seq<AssetResult> ::
                  && CycleSoFar(old(tables.signals), tables.signals, results, assets, failure, GetSignalTimestamp(now))
                  && CycleComputed(tables.signals, results, assets, failure, snapshots, GetSignalTimestamp(now), historicalCas, stdev, now)
                  && (alerts.Tables(), alertResults.value) ==
                       AllAlertsEffect(old(alerts.Tables()), assets, SignalsByAsset(results), LatestHealth(health), now)
    {
      var signalTs := GetSignalTimestamp(now);
      var latest := LatestHealth(health);
      if !CheckSignalLock(latest) {
        return None;
      }
      var results := ComputeAllAssets(tables, snapshots, signalTs, historicalCas, stdev, failure, now);
      CycleOutcome(old(tables.signals), tables.signals, results, failure, snapshots, signalTs, historicalCas, stdev, now);
      var signalsByAsset := SignalsByAsset(results);
      var r := EvaluateAllAlerts(alerts, assets, signalsByAsset, latest, now);
      alertResults := Some(r);
    }

    /**
     * The loop of `run_signal_computation` over the configured assets: each
     * is computed and persisted in order, and the results of those that
     * returned one are collected.
     */
    method ComputeAllAssets(tables: SignalTables, snapshots: seq<SnapshotRow>, signalTs: int,
                            historicalCas: string -> seq<real>, stdev: seq<real> -> real, failure: string -> Failure, now: int)
      returns (results: seq<AssetResult>)
      requires forall xs :: stdev(xs) >= 0.0
      modifies tables
      ensures CycleSoFar(old(tables.signals), tables.signals, results, assets, failure, signalTs)
      ensures CycleComputed(tables.signals, results, assets, failure, snapshots, signalTs, historicalCas, stdev, now)
    {
      AssetsDistinct();
      results := [];
      for i := 0 to |assets|
        invariant CycleSoFar(old(tables.signals), tables.signals, results, assets[..i], failure, signalTs)
        invariant CycleComputed(tables.signals, results, assets[..i], failure, snapshots, signalTs, historicalCas, stdev, now)
      {
        var asset := assets[i];
        assert assets[..i + 1] == assets[..i] + [asset];
        assert asset !in assets[..i];
        ghost var before := tables.signals;
        var result, computed := ComputeSignalForAsset(tables, snapshots, signalTs, asset, historicalCas(asset), stdev,
                                                      failure(asset), now);
        CycleAdvance(old(tables.signals), before, tables.signals, results, assets[..i], asset, failure, snapshots, signalTs,
                     historicalCas, stdev, now, result, computed);
        if result.Some? {
          results := results + [result.value];
        }
      }
      assert assets[..|assets|] == assets;
    }

    /** What a whole cycle leaves in the signals table: each stored row is its asset's computation, and only these are new. */
    lemma CycleOutcome(signals0: map<(int, string), SignalRow>, signals: map<(int, string), SignalRow>,
                       results: seq<AssetResult>, failure: string -> Failure, snapshots: seq<SnapshotRow>, signalTs: int,
                       historicalCas: string -> seq<real>, stdev: seq<real> -> real, now: int)
      requires CycleSoFar(signals0, signals, results, assets, failure, signalTs)
      requires CycleComputed(signals, results, assets, failure, snapshots, signalTs, historicalCas, stdev, now)
      ensures forall a :: a in assets && failure(a) != BeforePersist ==>
                && (signalTs, a) in signals
                && StoresComputation(signals[(signalTs, a)], snapshots, signalTs, a, historicalCas(a), stdev, now)
      ensures forall k :: k in signals && k !in signals0 ==>
                k.0 == signalTs && k.1 in assets && failure(k.1) != BeforePersist
    {
    }

    /** The configured assets are distinct, so one cycle computes each asset once. */
    lemma AssetsDistinct()
      ensures forall i, j :: 0 <= i < j < |assets| ==> assets[i] != assets[j]
    {
      assert assets[0] != assets[1] && assets[0] != assets[2] && assets[1] != assets[2] by {
        assert assets[0][0] == 'H' && assets[1][0] == 'B' && assets[2][0] == 'E';
      }
    }
  }
}
