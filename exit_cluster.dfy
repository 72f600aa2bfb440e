/**
 * The Exit Cluster alert with hysteresis: it triggers when the score rises
 * above 25 while inactive and resets only when the score falls below 20.
 */
module ExitCluster {
  import opened Wrappers
  import opened Playbook
  import opened AlertPersistence
  import opened Throttling

  const TRIGGER_ABOVE: real := 25.0
  const RESET_BELOW: real := 20.0

  /** The new `is_active` and whether this evaluation triggers. */
  function ExitTransition(isActive: bool, score: real): (r: (bool, bool))
    ensures r.1 <==> !isActive && score > TRIGGER_ABOVE
    ensures r.1 ==> r.0
    ensures r.0 != isActive <==> r.1 || (isActive && score < RESET_BELOW)
    ensures isActive && score >= RESET_BELOW ==> r.0
    ensures !isActive && score <= TRIGGER_ABOVE ==> !r.0
  {
    if !isActive && score > TRIGGER_ABOVE then (true, true)
    else if isActive && score < RESET_BELOW then (false, false)
    else (isActive, false)
  }

  /**
   * One evaluation on the alert tables. Unless suppressed by System Stale,
   * the state row is written first — with the 60-minute cooldown on a
   * trigger and a NULL cooldown otherwise — and only then is throttling
   * consulted, so a trigger always finds itself in cooldown: it appends a
   * suppressed alert and never fires.
   */
  function ExitEffect(db: AlertTables, asset: string, score: real, suppressed: bool, now: int): (r: (AlertTables, bool))
    ensures suppressed ==> r == (db, false)
    ensures !r.1
    ensures !suppressed ==>
              var st := GetAlertState(db.state, asset, EXIT_CLUSTER);
              var (active, trigger) := ExitTransition(st.Some? && st.value.isActive, score);
              && GetAlertState(r.0.state, asset, EXIT_CLUSTER) ==
                   Some(AlertStatus(active, if active then Some(now) else None, if trigger then Some(now + 3600) else None))
              && r.0.alerts == db.alerts + (if trigger then [AlertRowFor(asset, EXIT_CLUSTER, High, Some(60), true, now)] else [])
    ensures db.state.Keys <= r.0.state.Keys <= db.state.Keys + {(asset, EXIT_CLUSTER)}
    ensures forall k :: k in db.state && k != (asset, EXIT_CLUSTER) ==> r.0.state[k] == db.state[k]
  {
    if suppressed then (db, false)
    else
      var st := GetAlertState(db.state, asset, EXIT_CLUSTER);
      var isActive := st.Some? && st.value.isActive;
      var (newActive, trigger) := ExitTransition(isActive, score);
      var minutes := GetCooldownDuration(EXIT_CLUSTER);
      var s1 := UpsertAlertState(db.state, asset, EXIT_CLUSTER, newActive, if trigger then minutes else None, now);
      if trigger then
        if !ShouldFireAlert(AlertTables(s1, db.alerts), asset, EXIT_CLUSTER, now) then
          (AlertTables(s1, db.alerts + [AlertRowFor(asset, EXIT_CLUSTER, High, minutes, true, now)]), false)
        else
          (AlertTables(s1, db.alerts + [AlertRowFor(asset, EXIT_CLUSTER, High, minutes, false, now)]), true)
      else (AlertTables(s1, db.alerts), false)
  }

  /** `evaluate_exit_cluster_alert` on the store. */
  method EvaluateExitClusterAlert(store: AlertStore, asset: string, signals: FullSignals, suppressed: bool, now: int)
    returns (fired: bool)
    modifies store
    ensures (store.Tables(), fired) == ExitEffect(old(store.Tables()), asset, signals.core.exitClusterScore, suppressed, now)
    ensures !fired
  {
    if suppressed {
      return false;
    }
    var score := signals.core.exitClusterScore;
    var st := GetAlertState(store.state, asset, EXIT_CLUSTER);
    var isActive := if st.Some? then st.value.isActive else false;
    var shouldTrigger := false;
    var newActive: bool;
    if !isActive && score > TRIGGER_ABOVE {
      shouldTrigger := true;
      newActive := true;
    } else if isActive && score < RESET_BELOW {
      newActive := false;
    } else {
      newActive := isActive;
    }
    var minutes := GetCooldownDuration(EXIT_CLUSTER);
    store.UpdateAlertState(asset, EXIT_CLUSTER, newActive, if shouldTrigger then minutes else None, now);
    if shouldTrigger {
      if !ShouldFireAlert(store.Tables(), asset, EXIT_CLUSTER, now) {
        store.PersistAlert(asset, EXIT_CLUSTER, High, minutes, true, now);
        return false;
      }
      store.PersistAlert(asset, EXIT_CLUSTER, High, minutes, false, now);
      return true;
    }
    fired := false;
  }

  /** The evaluations of a score series from a given `is_active`: which ones trigger. */
  function Triggers(active: bool, scores: seq<real>): (r: seq<bool>)
    ensures |r| == |scores|
    decreases |scores|
  {
    if scores == [] then []
    else
      var (next, trigger) := ExitTransition(active, scores[0]);
      [trigger] + Triggers(next, scores[1..])
  }

  /** The `is_active` flag after a score series. */
  function ActiveAfter(active: bool, scores: seq<real>): bool
    decreases |scores|
  {
    if scores == [] then active else ActiveAfter(ExitTransition(active, scores[0]).0, scores[1..])
  }

  /**
   * Once active, a series with no score below 20 keeps the flag set and
   * triggers nowhere: a new trigger needs a reset in between.
   */
  lemma {:induction false} NoRetriggerWithoutReset(scores: seq<real>)
    requires forall i :: 0 <= i < |scores| ==> scores[i] >= RESET_BELOW
    ensures ActiveAfter(true, scores)
    ensures forall i :: 0 <= i < |scores| ==> !Triggers(true, scores)[i]
  {
    if scores != [] {
      NoRetriggerWithoutReset(scores[1..]);
      assert ExitTransition(true, scores[0]).0;
      assert Triggers(true, scores) == [false] + Triggers(true, scores[1..]);
    }
  }

  /** The score series 10, 24, 26, 22, 19, 27 from inactive triggers exactly at 26 and 27. */
  lemma HysteresisExample()
    ensures Triggers(false, [10.0, 24.0, 26.0, 22.0, 19.0, 27.0]) == [false, false, true, false, false, true]
  {
    var s := [10.0, 24.0, 26.0, 22.0, 19.0, 27.0];
    assert s[1..] == [24.0, 26.0, 22.0, 19.0, 27.0];
    assert s[1..][1..] == [26.0, 22.0, 19.0, 27.0];
    assert s[1..][1..][1..] == [22.0, 19.0, 27.0];
    assert s[1..][1..][1..][1..] == [19.0, 27.0];
    assert s[1..][1..][1..][1..][1..] == [27.0];
    assert Triggers(true, [27.0]) == [false] by {
      assert [27.0][1..] == [];
    }
    assert Triggers(false, [27.0]) == [true] by {
      assert [27.0][1..] == [];
    }
  }
}
