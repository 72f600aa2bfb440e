/** Alert throttling: per-key cooldowns and a rolling daily limit per asset. */
module Throttling {
  import opened Wrappers
  import opened Clock
  import opened AlertPersistence

  /** Unsuppressed alerts allowed per asset in any rolling 24 hours. */
  const DAILY_LIMIT: nat := 4

  /** An alert is allowed unless its key's cooldown lies strictly in the future. */
  function CheckCooldown(state: map<StateKey, AlertStateRow>, asset: string, alertType: string, now: int): (allowed: bool)
    ensures allowed <==> (asset, alertType) !in state
                         || state[(asset, alertType)].cooldownUntil.None?
                         || now >= state[(asset, alertType)].cooldownUntil.value
  {
    var row := GetAlertState(state, asset, alertType);
    if row.None? then true
    else if row.value.cooldownUntil.None? then true
    else if now < row.value.cooldownUntil.value then false
    else true
  }

  /** An unsuppressed alert of the asset (any type) from the 24 hours up to `now`. */
  predicate CountsTowardLimit(r: AlertRow, asset: string, now: int) {
    r.asset == Some(asset) && r.alertTs > now - SECONDS_PER_DAY && !r.suppressed
  }

  /** The number of alerts counting toward the asset's daily limit. */
  function DailyCount(alerts: seq<AlertRow>, asset: string, now: int): (n: nat)
    ensures n <= |alerts|
    ensures n == 0 <==> forall r :: r in alerts ==> !CountsTowardLimit(r, asset, now)
  {
    if alerts == [] then 0
    else
      var init := alerts[..|alerts| - 1];
      var last := alerts[|alerts| - 1];
      assert forall r :: r in alerts ==> r in init || r == last;
      DailyCount(init, asset, now) + (if CountsTowardLimit(last, asset, now) then 1 else 0)
  }

  /** Appending a row raises the count by one exactly when the row counts. */
  lemma DailyCountAppend(alerts: seq<AlertRow>, r: AlertRow, asset: string, now: int)
    ensures DailyCount(alerts + [r], asset, now) ==
              DailyCount(alerts, asset, now) + (if CountsTowardLimit(r, asset, now) then 1 else 0)
  {
    assert (alerts + [r])[..|alerts|] == alerts;
  }

  /** An alert is allowed while fewer than four count toward the limit. */
  function CheckDailyLimit(alerts: seq<AlertRow>, asset: string, now: int): (allowed: bool)
    ensures allowed <==> DailyCount(alerts, asset, now) < DAILY_LIMIT
  {
    DailyCount(alerts, asset, now) < DAILY_LIMIT
  }

  /** Cooldown first, then the daily limit. */
  function ShouldFireAlert(db: AlertTables, asset: string, alertType: string, now: int): (fire: bool)
    ensures fire <==> CheckCooldown(db.state, asset, alertType, now) && CheckDailyLimit(db.alerts, asset, now)
  {
    if !CheckCooldown(db.state, asset, alertType, now) then false
    else if !CheckDailyLimit(db.alerts, asset, now) then false
    else true
  }

  /** Cooldown minutes per alert type: 30 for regime change, 60 for exit cluster, none otherwise. */
  function GetCooldownDuration(alertType: string): (minutes: Option<nat>)
    ensures minutes.Some? <==> alertType == REGIME_CHANGE || alertType == EXIT_CLUSTER
    ensures alertType == REGIME_CHANGE ==> minutes == Some(30)
    ensures alertType == EXIT_CLUSTER ==> minutes == Some(60)
  {
    if alertType == REGIME_CHANGE then Some(30)
    else if alertType == EXIT_CLUSTER then Some(60)
    else None
  }

  /** An alert that passed the check and was recorded unsuppressed keeps the count within the limit. */
  lemma FiringStaysWithinDailyLimit(db: AlertTables, asset: string, alertType: string, severity: Severity,
                                    cooldownMinutes: Option<nat>, now: int)
    requires ShouldFireAlert(db, asset, alertType, now)
    ensures DailyCount(db.alerts + [AlertRowFor(asset, alertType, severity, cooldownMinutes, false, now)], asset, now) <= DAILY_LIMIT
  {
    DailyCountAppend(db.alerts, AlertRowFor(asset, alertType, severity, cooldownMinutes, false, now), asset, now);
  }

  /** A suppressed alert never counts toward the limit. */
  lemma SuppressedAlertsDoNotCount(alerts: seq<AlertRow>, asset: string, alertType: string, severity: Severity,
                                   cooldownMinutes: Option<nat>, at: int, now: int)
    ensures DailyCount(alerts + [AlertRowFor(asset, alertType, severity, cooldownMinutes, true, at)], asset, now) ==
              DailyCount(alerts, asset, now)
  {
    DailyCountAppend(alerts, AlertRowFor(asset, alertType, severity, cooldownMinutes, true, at), asset, now);
  }

  /** System alerts are stored with a NULL asset, so they never count toward any asset's limit. */
  lemma SystemAlertsDoNotCount(alerts: seq<AlertRow>, alertType: string, severity: Severity,
                               cooldownMinutes: Option<nat>, suppressed: bool, at: int, asset: string, now: int)
    ensures DailyCount(alerts + [AlertRowFor(SYSTEM, alertType, severity, cooldownMinutes, suppressed, at)], asset, now) ==
              DailyCount(alerts, asset, now)
  {
    DailyCountAppend(alerts, AlertRowFor(SYSTEM, alertType, severity, cooldownMinutes, suppressed, at), asset, now);
  }

  /**
   * After a state update with a cooldown of m minutes at time t0, the key is
   * blocked exactly until t0 + m minutes; without one it is never blocked.
   */
  lemma CooldownAfterUpdate(state: map<StateKey, AlertStateRow>, asset: string, alertType: string, isActive: bool,
                            cooldownMinutes: Option<nat>, t0: int, t: int)
    ensures Truthy(cooldownMinutes) ==>
              (CheckCooldown(UpsertAlertState(state, asset, alertType, isActive, cooldownMinutes, t0), asset, alertType, t)
               <==> t >= t0 + cooldownMinutes.value * SECONDS_PER_MINUTE)
    ensures !Truthy(cooldownMinutes) ==>
              CheckCooldown(UpsertAlertState(state, asset, alertType, isActive, cooldownMinutes, t0), asset, alertType, t)
  {
    var r := UpsertAlertState(state, asset, alertType, isActive, cooldownMinutes, t0);
    assert GetAlertState(r, asset, alertType).Some?;
  }
}
