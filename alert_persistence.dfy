/**
 * The two alert tables: `alert_state`, one row per (asset, alert type)
 * upserted by hysteresis and regime tracking, and `alerts`, to which every
 * fired or suppressed alert is appended. Times are integer seconds.
 */
module AlertPersistence {
  import opened Wrappers
  import opened Clock
  import opened Playbook

  const SYSTEM: string := "SYSTEM"
  const REGIME_CHANGE: string := "regime_change"
  const EXIT_CLUSTER: string := "exit_cluster"
  const SYSTEM_STALE: string := "system_stale"

  datatype Severity = Medium | High | Critical

  /**
   * A row of `alert_state`. The regime columns hold the pending playbook,
   * its period count and the snapshot column, which is NULL (`None`) or a
   * record holding the previous confirmed playbook.
   */
  datatype AlertStateRow = AlertStateRow(
    isActive: bool,
    lastTriggeredTs: Option<int>,
    cooldownUntil: Option<int>,
    pendingPlaybook: Option<AllowedPlaybook>,
    pendingPeriods: int,
    previousSnapshot: Option<Option<AllowedPlaybook>>)

  /** A row of `alerts`; the SYSTEM pseudo-asset is stored as NULL. */
  datatype AlertRow = AlertRow(
    alertTs: int,
    asset: Option<string>,
    alertType: string,
    severity: Severity,
    cooldownUntil: int,
    suppressed: bool)

  type StateKey = (string, string)

  /** Both tables as values. */
  datatype AlertTables = AlertTables(state: map<StateKey, AlertStateRow>, alerts: seq<AlertRow>)

  /** Python truthiness of an optional minute count: `None` and `0` are false. */
  predicate Truthy(minutes: Option<nat>) {
    minutes.Some? && minutes.value != 0
  }

  /** The row `persist_alert` inserts at time `now`. */
  function AlertRowFor(asset: string, alertType: string, severity: Severity, cooldownMinutes: Option<nat>,
                       suppressed: bool, now: int): (r: AlertRow)
    ensures r.alertTs == now && r.alertType == alertType && r.severity == severity && r.suppressed == suppressed
    ensures r.asset.None? <==> asset == SYSTEM
    ensures r.asset.Some? ==> r.asset.value == asset
    ensures r.cooldownUntil >= now
    ensures r.cooldownUntil == now <==> !Truthy(cooldownMinutes)
  {
    var until := if Truthy(cooldownMinutes) then now + cooldownMinutes.value * SECONDS_PER_MINUTE else now;
    AlertRow(now, if asset == SYSTEM then None else Some(asset), alertType, severity, until, suppressed)
  }

  /** The hysteresis fields `get_alert_state` reads. */
  datatype AlertStatus = AlertStatus(isActive: bool, lastTriggeredTs: Option<int>, cooldownUntil: Option<int>)

  /** The hysteresis fields of the key's row, or `None` when there is no row. */
  function GetAlertState(state: map<StateKey, AlertStateRow>, asset: string, alertType: string): (r: Option<AlertStatus>)
    ensures r.None? <==> (asset, alertType) !in state
    ensures r.Some? ==>
              r.value.isActive == state[(asset, alertType)].isActive &&
              r.value.lastTriggeredTs == state[(asset, alertType)].lastTriggeredTs &&
              r.value.cooldownUntil == state[(asset, alertType)].cooldownUntil
  {
    if (asset, alertType) !in state then None
    else
      var row := state[(asset, alertType)];
      Some(AlertStatus(row.isActive, row.lastTriggeredTs, row.cooldownUntil))
  }

  /**
   * `update_alert_state`: insert the row, or on conflict overwrite only
   * is_active, last_triggered_ts and cooldown_until. A row it inserts has
   * no pending playbook, zero periods and a NULL snapshot.
   */
  function UpsertAlertState(state: map<StateKey, AlertStateRow>, asset: string, alertType: string,
                            isActive: bool, cooldownMinutes: Option<nat>, now: int): (r: map<StateKey, AlertStateRow>)
    ensures r.Keys == state.Keys + {(asset, alertType)}
    ensures GetAlertState(r, asset, alertType) ==
              Some(AlertStatus(isActive, if isActive then Some(now) else None,
                               if Truthy(cooldownMinutes) then Some(now + cooldownMinutes.value * SECONDS_PER_MINUTE) else None))
    ensures (asset, alertType) in state ==>
              var old_ := state[(asset, alertType)];
              var new_ := r[(asset, alertType)];
              new_.pendingPlaybook == old_.pendingPlaybook && new_.pendingPeriods == old_.pendingPeriods
              && new_.previousSnapshot == old_.previousSnapshot
    ensures forall k :: k in state && k != (asset, alertType) ==> r[k] == state[k]
  {
    var key := (asset, alertType);
    var last := if isActive then Some(now) else None;
    var until := if Truthy(cooldownMinutes) then Some(now + cooldownMinutes.value * SECONDS_PER_MINUTE) else None;
    if key in state then
      state[key := state[key].(isActive := isActive, lastTriggeredTs := last, cooldownUntil := until)]
    else
      state[key := AlertStateRow(isActive, last, until, None, 0, None)]
  }

  /** The regime-change tracking state: pending playbook, periods at it, last confirmed playbook. */
  datatype Tracking = Tracking(pending: Option<AllowedPlaybook>, periods: int, previous: Option<AllowedPlaybook>)

  /**
   * The asset's regime tracking, or `None` without a regime-change row;
   * the previous playbook is `None` when the snapshot column is NULL.
   */
  function GetRegimeTrackingState(state: map<StateKey, AlertStateRow>, asset: string): (r: Option<Tracking>)
    ensures r.None? <==> (asset, REGIME_CHANGE) !in state
    ensures r.Some? ==>
              r.value.pending == state[(asset, REGIME_CHANGE)].pendingPlaybook &&
              r.value.periods == state[(asset, REGIME_CHANGE)].pendingPeriods
    ensures r.Some? && state[(asset, REGIME_CHANGE)].previousSnapshot.None? ==> r.value.previous.None?
    ensures r.Some? && state[(asset, REGIME_CHANGE)].previousSnapshot.Some? ==>
              r.value.previous == state[(asset, REGIME_CHANGE)].previousSnapshot.value
  {
    if (asset, REGIME_CHANGE) !in state then None
    else
      var row := state[(asset, REGIME_CHANGE)];
      Some(Tracking(row.pendingPlaybook, row.pendingPeriods,
                    if row.previousSnapshot.Some? then row.previousSnapshot.value else None))
  }

  /**
   * `update_regime_tracking_state`: insert an inactive regime-change row, or
   * on conflict overwrite only the pending playbook, the period count and
   * the snapshot holding the previous playbook.
   */
  function UpsertRegimeTracking(state: map<StateKey, AlertStateRow>, asset: string, t: Tracking): (r: map<StateKey, AlertStateRow>)
    ensures r.Keys == state.Keys + {(asset, REGIME_CHANGE)}
    ensures GetRegimeTrackingState(r, asset) == Some(t)
    ensures (asset, REGIME_CHANGE) in state ==>
              GetAlertState(r, asset, REGIME_CHANGE) == GetAlertState(state, asset, REGIME_CHANGE)
    ensures (asset, REGIME_CHANGE) !in state ==>
              GetAlertState(r, asset, REGIME_CHANGE) == Some(AlertStatus(false, None, None))
    ensures forall k :: k in state && k != (asset, REGIME_CHANGE) ==> r[k] == state[k]
  {
    var key := (asset, REGIME_CHANGE);
    if key in state then
      state[key := state[key].(pendingPlaybook := t.pending, pendingPeriods := t.periods, previousSnapshot := Some(t.previous))]
    else
      state[key := AlertStateRow(false, None, None, t.pending, t.periods, Some(t.previous))]
  }

  /** The alert tables as a mutable store. */
  class AlertStore {
    var state: map<StateKey, AlertStateRow>
    var alerts: seq<AlertRow>

    constructor()
      ensures state == map[] && alerts == []
    {
      state := map[];
      alerts := [];
    }

    /** Both tables as one value. */
    function Tables(): AlertTables
      reads this
    {
      AlertTables(state, alerts)
    }

    /** `persist_alert`: append one row, leave `alert_state` alone. */
    method PersistAlert(asset: string, alertType: string, severity: Severity, cooldownMinutes: Option<nat>,
                        suppressed: bool, now: int)
      modifies this
      ensures alerts == old(alerts) + [AlertRowFor(asset, alertType, severity, cooldownMinutes, suppressed, now)]
      ensures state == old(state)
    {
      alerts := alerts + [AlertRowFor(asset, alertType, severity, cooldownMinutes, suppressed, now)];
    }

    /** `update_alert_state`. */
    method UpdateAlertState(asset: string, alertType: string, isActive: bool, cooldownMinutes: Option<nat>, now: int)
      modifies this
      ensures state == UpsertAlertState(old(state), asset, alertType, isActive, cooldownMinutes, now)
      ensures alerts == old(alerts)
    {
      state := UpsertAlertState(state, asset, alertType, isActive, cooldownMinutes, now);
    }

    /** `update_regime_tracking_state`. */
    method UpdateRegimeTrackingState(asset: string, t: Tracking)
      modifies this
      ensures state == UpsertRegimeTracking(old(state), asset, t)
      ensures alerts == old(alerts)
    {
      state := UpsertRegimeTracking(state, asset, t);
    }
  }
}
