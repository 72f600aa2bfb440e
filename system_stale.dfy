/**
 * The System Stale alert, a dead man's switch on ingestion: it fires once
 * when the last successful snapshot is more than 10 minutes old and again
 * only after the system has recovered.
 */
module SystemStale {
  import opened Wrappers
  import opened Clock
  import opened Snapshots
  import opened AlertPersistence

  const STALE_AFTER_SECONDS: int := 600

  /**
   * Whether ingestion is stale, and the whole minutes since the last success
   * when it is. No health row, or one without a last success, is stale
   * with no minute count.
   */
  function CheckSystemStale(latest: Option<HealthRow>, now: int): (r: (bool, Option<int>))
    ensures latest.None? || latest.value.lastSuccessTs.None? ==> r == (true, None)
    ensures latest.Some? && latest.value.lastSuccessTs.Some? ==>
              (r.0 <==> now - latest.value.lastSuccessTs.value > STALE_AFTER_SECONDS)
              && (r.1.Some? <==> r.0)
              && (r.1.Some? ==> r.1.value >= 10 && r.1.value * 60 <= now - latest.value.lastSuccessTs.value
                                < (r.1.value + 1) * 60)
  {
    if latest.None? || latest.value.lastSuccessTs.None? then (true, None)
    else
      var age := now - latest.value.lastSuccessTs.value;
      var ageMinutes := TruncDiv(age, SECONDS_PER_MINUTE);
      var isStale := age > STALE_AFTER_SECONDS;
      (isStale, if isStale then Some(ageMinutes) else None)
  }

  /** Whether the SYSTEM stale alert is active; false without a state row. */
  function IsSystemStaleActive(state: map<StateKey, AlertStateRow>): (active: bool)
    ensures active ==> (SYSTEM, SYSTEM_STALE) in state
    ensures (SYSTEM, SYSTEM_STALE) in state ==> (active <==> state[(SYSTEM, SYSTEM_STALE)].isActive)
  {
    var st := GetAlertState(state, SYSTEM, SYSTEM_STALE);
    if st.Some? then st.value.isActive else false
  }

  /**
   * One evaluation on the alert tables: stale and inactive fires (the flag
   * is set and one critical, unsuppressed alert without cooldown is
   * appended, with no throttle check); fresh and active resets the flag;
   * anything else changes nothing.
   */
  function StaleEffect(db: AlertTables, latest: Option<HealthRow>, now: int): (r: (AlertTables, bool))
    ensures r.1 <==> CheckSystemStale(latest, now).0 && !IsSystemStaleActive(db.state)
    ensures IsSystemStaleActive(r.0.state) <==> CheckSystemStale(latest, now).0
    ensures r.0.alerts == db.alerts + (if r.1 then [AlertRowFor(SYSTEM, SYSTEM_STALE, Critical, None, false, now)] else [])
    ensures CheckSystemStale(latest, now).0 == IsSystemStaleActive(db.state) ==> r.0 == db
    ensures db.state.Keys <= r.0.state.Keys <= db.state.Keys + {(SYSTEM, SYSTEM_STALE)}
    ensures forall k :: k in db.state && k != (SYSTEM, SYSTEM_STALE) ==> r.0.state[k] == db.state[k]
  {
    var (isStale, _) := CheckSystemStale(latest, now);
    var isActive := IsSystemStaleActive(db.state);
    if isStale && !isActive then
      (AlertTables(UpsertAlertState(db.state, SYSTEM, SYSTEM_STALE, true, None, now),
                   db.alerts + [AlertRowFor(SYSTEM, SYSTEM_STALE, Critical, None, false, now)]), true)
    else if !isStale && isActive then
      (AlertTables(UpsertAlertState(db.state, SYSTEM, SYSTEM_STALE, false, None, now), db.alerts), false)
    else (db, false)
  }

  /** `evaluate_system_stale_alert` on the store, with the latest health row read beforehand. */
  method EvaluateSystemStaleAlert(store: AlertStore, latest: Option<HealthRow>, now: int) returns (fired: bool)
    modifies store
    ensures (store.Tables(), fired) == StaleEffect(old(store.Tables()), latest, now)
  {
    var (isStale, _) := CheckSystemStale(latest, now);
    var isActive := IsSystemStaleActive(store.state);
    if isStale && !isActive {
      store.UpdateAlertState(SYSTEM, SYSTEM_STALE, true, None, now);
      store.PersistAlert(SYSTEM, SYSTEM_STALE, Critical, None, false, now);
      return true;
    } else if !isStale && isActive {
      store.UpdateAlertState(SYSTEM, SYSTEM_STALE, false, None, now);
      return false;
    }
    fired := false;
  }

  /**
   * The alarm fires only if the evaluation before it found the system
   * fresh, so two fires are always separated by a recovery.
   */
  lemma FireFollowsRecovery(db: AlertTables, latest1: Option<HealthRow>, now1: int, latest2: Option<HealthRow>, now2: int)
    requires StaleEffect(StaleEffect(db, latest1, now1).0, latest2, now2).1
    ensures !CheckSystemStale(latest1, now1).0
    ensures !StaleEffect(db, latest1, now1).1
  {
  }

  /** Exactly ten minutes after the last success is not yet stale; one second later it is. */
  lemma StaleBoundary(h: HealthRow)
    requires h.lastSuccessTs.Some?
    ensures !CheckSystemStale(Some(h), h.lastSuccessTs.value + 600).0
    ensures CheckSystemStale(Some(h), h.lastSuccessTs.value + 601) == (true, Some(10))
  {
  }
}
