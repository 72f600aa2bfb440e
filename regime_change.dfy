/**
 * The Regime Change alert: a change of allowed playbook is confirmed only
 * after the new playbook has been seen in two consecutive signal periods.
 */
module RegimeChange {
  import opened Wrappers
  import opened Playbook
  import opened AlertPersistence
  import opened Throttling

  /** The tracking state's invariant on every row the evaluator writes. */
  predicate WellFormed(t: Tracking) {
    && t.previous.Some?
    && (t.pending.None? <==> t.periods == 0)
    && 0 <= t.periods <= 1
    && (t.pending.Some? ==> t.pending != t.previous)
  }

  /** Whether this evaluation confirms the pending change (the period count reaches two). */
  predicate Confirms(t: Option<Tracking>, current: AllowedPlaybook) {
    t.Some? && t.value.previous != Some(current) && t.value.pending == Some(current) && t.value.periods + 1 >= 2
  }

  /**
   * The tracking state written by one evaluation. Without a row the current
   * playbook is recorded as previous; a playbook differing from both the
   * previous and the pending one starts a new pending count at 1; the
   * pending one counts up and is confirmed at 2; a return to the previous
   * playbook cancels the pending one.
   */
  function NextTracking(t: Option<Tracking>, current: AllowedPlaybook): (r: Tracking)
    ensures t.None? ==> r == Tracking(None, 0, Some(current))
    ensures Confirms(t, current) ==> r == Tracking(None, 0, Some(current))
    ensures r.previous == Some(current) || r.pending == Some(current)
    ensures r.pending.Some? ==> r.pending == Some(current)
    ensures t.Some? && t.value.previous != Some(current) && t.value.pending != Some(current) ==>
              r == Tracking(Some(current), 1, t.value.previous)
  {
    if t.None? then Tracking(None, 0, Some(current))
    else
      var tr := t.value;
      if tr.previous != Some(current) then
        if tr.pending == Some(current) then
          if tr.periods + 1 >= 2 then Tracking(None, 0, Some(current))
          else Tracking(Some(current), tr.periods + 1, tr.previous)
        else Tracking(Some(current), 1, tr.previous)
      else if tr.pending == Some(current) then
        if tr.periods + 1 >= 2 then Tracking(None, 0, Some(current))
        else Tracking(tr.pending, tr.periods + 1, tr.previous)
      else if tr.pending.Some? then Tracking(None, 0, Some(current))
      else Tracking(None, 0, Some(current))
  }

  /**
   * One evaluation on the alert tables: nothing when suppressed by System
   * Stale; otherwise the tracking row is rewritten and, on confirmation, an
   * alert row is appended — unsuppressed with a 30-minute cooldown written
   * to the state row when throttling allows, suppressed otherwise.
   */
  function RegimeEffect(db: AlertTables, asset: string, current: AllowedPlaybook, suppressed: bool, now: int)
    : (r: (AlertTables, bool))
    ensures suppressed ==> r == (db, false)
    ensures !suppressed ==>
              GetRegimeTrackingState(r.0.state, asset) == Some(NextTracking(GetRegimeTrackingState(db.state, asset), current))
    ensures r.1 <==> !suppressed && Confirms(GetRegimeTrackingState(db.state, asset), current)
                     && ShouldFireAlert(db, asset, REGIME_CHANGE, now)
    ensures r.0.alerts ==
              db.alerts + (if !suppressed && Confirms(GetRegimeTrackingState(db.state, asset), current)
                           then [AlertRowFor(asset, REGIME_CHANGE, Medium, Some(30), !r.1, now)] else [])
    ensures r.1 ==> GetAlertState(r.0.state, asset, REGIME_CHANGE) == Some(AlertStatus(false, None, Some(now + 1800)))
    ensures !r.1 && (asset, REGIME_CHANGE) in db.state ==>
              GetAlertState(r.0.state, asset, REGIME_CHANGE) == GetAlertState(db.state, asset, REGIME_CHANGE)
    ensures db.state.Keys <= r.0.state.Keys <= db.state.Keys + {(asset, REGIME_CHANGE)}
    ensures forall k :: k in db.state && k != (asset, REGIME_CHANGE) ==> r.0.state[k] == db.state[k]
  {
    if suppressed then (db, false)
    else
      var t := GetRegimeTrackingState(db.state, asset);
      var next := NextTracking(t, current);
      if !Confirms(t, current) then
        (AlertTables(UpsertRegimeTracking(db.state, asset, next), db.alerts), false)
      else
        var minutes := GetCooldownDuration(REGIME_CHANGE);
        if !ShouldFireAlert(db, asset, REGIME_CHANGE, now) then
          (AlertTables(UpsertRegimeTracking(db.state, asset, next),
                       db.alerts + [AlertRowFor(asset, REGIME_CHANGE, Medium, minutes, true, now)]), false)
        else
          var s1 := UpsertAlertState(db.state, asset, REGIME_CHANGE, false, minutes, now);
          (AlertTables(UpsertRegimeTracking(s1, asset, next),
                       db.alerts + [AlertRowFor(asset, REGIME_CHANGE, Medium, minutes, false, now)]), true)
  }

  /** `evaluate_regime_change_alert` on the store. */
  method EvaluateRegimeChangeAlert(store: AlertStore, asset: string, signals: FullSignals, suppressed: bool, now: int)
    returns (fired: bool)
    modifies store
    ensures (store.Tables(), fired) == RegimeEffect(old(store.Tables()), asset, signals.allowedPlaybook, suppressed, now)
  {
    if suppressed {
      return false;
    }
    var current := signals.allowedPlaybook;
    var tracking := GetRegimeTrackingState(store.state, asset);
    var next := NextTracking(tracking, current);
    if !Confirms(tracking, current) {
      store.UpdateRegimeTrackingState(asset, next);
      return false;
    }
    var minutes := GetCooldownDuration(REGIME_CHANGE);
    if !ShouldFireAlert(store.Tables(), asset, REGIME_CHANGE, now) {
      store.PersistAlert(asset, REGIME_CHANGE, Medium, minutes, true, now);
      store.UpdateRegimeTrackingState(asset, next);
      return false;
    }
    store.PersistAlert(asset, REGIME_CHANGE, Medium, minutes, false, now);
    store.UpdateAlertState(asset, REGIME_CHANGE, false, minutes, now);
    store.UpdateRegimeTrackingState(asset, next);
    fired := true;
  }

  /** Every tracking state the evaluator writes is well formed, from no row or a well-formed one. */
  lemma TrackingStaysWellFormed(t: Option<Tracking>, current: AllowedPlaybook)
    requires t.None? || WellFormed(t.value)
    ensures WellFormed(NextTracking(t, current))
  {
  }

  /**
   * On a well-formed state the change is confirmed exactly when the current
   * playbook is the pending one, so neither the "waiting for the 2nd period"
   * branch nor the "anomaly" branch is reachable.
   */
  lemma ConfirmsExactlyAtPending(t: Tracking, current: AllowedPlaybook)
    requires WellFormed(t)
    ensures Confirms(Some(t), current) <==> t.pending == Some(current)
    ensures t.previous == Some(current) ==> t.pending != Some(current)
  {
  }

  /**
   * A confirmation needs the same playbook in the evaluation before, and
   * that earlier evaluation did not confirm anything itself.
   */
  lemma ConfirmationNeedsTwoPeriods(t: Option<Tracking>, p1: AllowedPlaybook, p2: AllowedPlaybook)
    requires Confirms(Some(NextTracking(t, p1)), p2)
    ensures p1 == p2
    ensures !Confirms(t, p1)
  {
  }

  /** A one-period flip away from the confirmed playbook and back is cancelled without a confirmation. */
  lemma OnePeriodFlipIsCancelled(a: AllowedPlaybook, b: AllowedPlaybook)
    requires a != b
    ensures var t0 := Tracking(None, 0, Some(a));
            var t1 := NextTracking(Some(t0), b);
            !Confirms(Some(t0), b) && !Confirms(Some(t1), a) && NextTracking(Some(t1), a) == t0
  {
  }

  /** A new playbook held for two periods is confirmed on the second and becomes the previous one. */
  lemma TwoPeriodsConfirm(a: AllowedPlaybook, b: AllowedPlaybook)
    requires a != b
    ensures var t0 := Tracking(None, 0, Some(a));
            var t1 := NextTracking(Some(t0), b);
            t1 == Tracking(Some(b), 1, Some(a)) && Confirms(Some(t1), b)
            && NextTracking(Some(t1), b) == Tracking(None, 0, Some(b))
  {
  }

  /** The stored tracking row stays well formed across evaluations on the tables. */
  lemma StoredTrackingStaysWellFormed(db: AlertTables, asset: string, current: AllowedPlaybook, suppressed: bool, now: int)
    requires GetRegimeTrackingState(db.state, asset).None? || WellFormed(GetRegimeTrackingState(db.state, asset).value)
    ensures var s := GetRegimeTrackingState(RegimeEffect(db, asset, current, suppressed, now).0.state, asset);
            s.None? || WellFormed(s.value)
  {
    if !suppressed {
      TrackingStaysWellFormed(GetRegimeTrackingState(db.state, asset), current);
    }
  }
}
