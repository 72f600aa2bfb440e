/**
 * The alert evaluator: System Stale once per cycle, then for each asset with
 * signals the behavioural alerts (Regime Change, then Exit Cluster), which
 * System Stale suppresses while it is active.
 */
module Evaluator {
  import opened Wrappers
  import opened Snapshots
  import opened Playbook
  import opened AlertPersistence
  import opened RegimeChange
  import opened ExitCluster
  import opened SystemStale

  /** The types that fired, in evaluation order. */
  function FiredTypes(regime: bool, exit: bool): (r: seq<string>)
    ensures (REGIME_CHANGE in r <==> regime) && (EXIT_CLUSTER in r <==> exit)
    ensures |r| <= 2
  {
    (if regime then [REGIME_CHANGE] else []) + (if exit then [EXIT_CLUSTER] else [])
  }

  /**
   * `evaluate_alerts` for one asset: nothing while System Stale is active;
   * otherwise Regime Change and then Exit Cluster on the tables it leaves.
   */
  function EvaluateAlertsEffect(db: AlertTables, asset: string, signals: FullSignals, now: int): (r: (AlertTables, seq<string>))
    ensures IsSystemStaleActive(db.state) ==> r == (db, [])
    ensures r.1 == [] || r.1 == [REGIME_CHANGE]
    ensures IsSystemStaleActive(r.0.state) == IsSystemStaleActive(db.state)
    ensures |db.alerts| <= |r.0.alerts| <= |db.alerts| + 2
  {
    if IsSystemStaleActive(db.state) then (db, [])
    else
      var (db1, regime) := RegimeEffect(db, asset, signals.allowedPlaybook, false, now);
      var (db2, exit) := ExitEffect(db1, asset, signals.core.exitClusterScore, false, now);
      (db2, FiredTypes(regime, exit))
  }

  /** `evaluate_alerts` on the store. */
  method EvaluateAlerts(store: AlertStore, asset: string, signals: FullSignals, now: int) returns (fired: seq<string>)
    modifies store
    ensures (store.Tables(), fired) == EvaluateAlertsEffect(old(store.Tables()), asset, signals, now)
  {
    fired := [];
    var suppressedBySystem := IsSystemStaleActive(store.state);
    if suppressedBySystem {
      return;
    }
    var regime := EvaluateRegimeChangeAlert(store, asset, signals, suppressedBySystem, now);
    if regime {
      fired := fired + [REGIME_CHANGE];
    }
    var exit := EvaluateExitClusterAlert(store, asset, signals, suppressedBySystem, now);
    if exit {
      fired := fired + [EXIT_CLUSTER];
    }
    assert fired == FiredTypes(regime, exit);
  }

  /** `evaluate_system_alerts`: the System Stale evaluation, listing it when it fired. */
  function EvaluateSystemAlertsEffect(db: AlertTables, latest: Option<HealthRow>, now: int): (r: (AlertTables, seq<string>))
    ensures r.1 == [] || r.1 == [SYSTEM_STALE]
    ensures r.1 == [SYSTEM_STALE] <==> CheckSystemStale(latest, now).0 && !IsSystemStaleActive(db.state)
    ensures IsSystemStaleActive(r.0.state) <==> CheckSystemStale(latest, now).0
  {
    var (db1, fired) := StaleEffect(db, latest, now);
    (db1, if fired then [SYSTEM_STALE] else [])
  }

  method EvaluateSystemAlerts(store: AlertStore, latest: Option<HealthRow>, now: int) returns (fired: seq<string>)
    modifies store
    ensures (store.Tables(), fired) == EvaluateSystemAlertsEffect(old(store.Tables()), latest, now)
  {
    fired := [];
    var stale := EvaluateSystemStaleAlert(store, latest, now);
    if stale {
      fired := fired + [SYSTEM_STALE];
      assert fired == [SYSTEM_STALE];
    }
  }

  /**
   * The per-asset phase over `assets`, in order, starting from the results
   * `init`: assets without signals are skipped, and an asset appears in the
   * results only with a non-empty list.
   */
  function AssetsEffect(db: AlertTables, init: map<string, seq<string>>, assets: seq<string>,
                        signalsByAsset: map<string, FullSignals>, now: int): (r: (AlertTables, map<string, seq<string>>))
    ensures forall a :: a in r.1 && a !in init ==> a in assets && a in signalsByAsset
    ensures (forall a :: a in init ==> init[a] != []) ==> forall a :: a in r.1 ==> r.1[a] != []
    ensures IsSystemStaleActive(r.0.state) == IsSystemStaleActive(db.state)
    decreases |assets|
  {
    if assets == [] then (db, init)
    else
      var (db1, res) := AssetsEffect(db, init, assets[..|assets| - 1], signalsByAsset, now);
      var a := assets[|assets| - 1];
      if a !in signalsByAsset then (db1, res)
      else
        var (db2, fired) := EvaluateAlertsEffect(db1, a, signalsByAsset[a], now);
        (db2, if fired != [] then res[a := fired] else res)
  }

  /** `evaluate_all_alerts`: System Stale first, listed under SYSTEM when it fired, then every asset. */
  function AllAlertsEffect(db: AlertTables, assets: seq<string>, signalsByAsset: map<string, FullSignals>,
                           latest: Option<HealthRow>, now: int): (r: (AlertTables, map<string, seq<string>>))
    ensures forall a :: a in r.1 ==> r.1[a] != [] && (a == SYSTEM || (a in assets && a in signalsByAsset))
    ensures IsSystemStaleActive(r.0.state) <==> CheckSystemStale(latest, now).0
  {
    var (db1, system) := EvaluateSystemAlertsEffect(db, latest, now);
    var init: map<string, seq<string>> := if system != [] then map[SYSTEM := system] else map[];
    AssetsEffect(db1, init, assets, signalsByAsset, now)
  }

  /** `evaluate_all_alerts` on the store. */
  method EvaluateAllAlerts(store: AlertStore, assets: seq<string>, signalsByAsset: map<string, FullSignals>,
                           latest: Option<HealthRow>, now: int)
    returns (results: map<string, seq<string>>)
    modifies store
    ensures (store.Tables(), results) == AllAlertsEffect(old(store.Tables()), assets, signalsByAsset, latest, now)
  {
    results := map[];
    var systemAlerts := EvaluateSystemAlerts(store, latest, now);
    if systemAlerts != [] {
      results := results[SYSTEM := systemAlerts];
    }
    ghost var db1 := store.Tables();
    ghost var init := results;
    for i := 0 to |assets|
      invariant (store.Tables(), results) == AssetsEffect(db1, init, assets[..i], signalsByAsset, now)
    {
      assert assets[..i + 1][..i] == assets[..i];
      var asset := assets[i];
      if asset !in signalsByAsset {
        continue;
      }
      var assetAlerts := EvaluateAlerts(store, asset, signalsByAsset[asset], now);
      if assetAlerts != [] {
        results := results[asset := assetAlerts];
      }
    }
    assert assets[..|assets|] == assets;
  }

  /** While System Stale is active the per-asset phase changes nothing and reports nothing. */
  lemma {:induction false} SuppressedAssetsAreNoOps(db: AlertTables, init: map<string, seq<string>>, assets: seq<string>,
                                                    signalsByAsset: map<string, FullSignals>, now: int)
    requires IsSystemStaleActive(db.state)
    ensures AssetsEffect(db, init, assets, signalsByAsset, now) == (db, init)
    decreases |assets|
  {
    if assets != [] {
      SuppressedAssetsAreNoOps(db, init, assets[..|assets| - 1], signalsByAsset, now);
    }
  }

  /**
   * A cycle whose System Stale evaluation finds the system stale evaluates
   * no behavioural alert at all: the only possible result is the SYSTEM
   * entry, and no asset's alert rows or state change.
   */
  lemma StaleCycleSuppressesBehaviouralAlerts(db: AlertTables, assets: seq<string>, signalsByAsset: map<string, FullSignals>,
                                              latest: Option<HealthRow>, now: int)
    requires CheckSystemStale(latest, now).0
    ensures var r := AllAlertsEffect(db, assets, signalsByAsset, latest, now);
            r.0 == EvaluateSystemAlertsEffect(db, latest, now).0
            && r.1.Keys <= {SYSTEM}
            && (SYSTEM in r.1 <==> !IsSystemStaleActive(db.state))
  {
    var (db1, system) := EvaluateSystemAlertsEffect(db, latest, now);
    var init: map<string, seq<string>> := if system != [] then map[SYSTEM := system] else map[];
    SuppressedAssetsAreNoOps(db1, init, assets, signalsByAsset, now);
  }
}
