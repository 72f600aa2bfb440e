/**
 * The dashboard's health badge: HEALTHY, DEGRADED or STALE from the latest
 * ingest health row and the System Stale alert flag.
 */
module UiHealth {
  import opened Wrappers
  import opened Clock
  import opened Snapshots
  import opened AlertPersistence
  import opened SystemStale

  /**
   * Whole minutes since the last successful snapshot, truncated toward
   * zero; unknown without a health row or a last success.
   */
  function SnapshotAgeMinutes(latest: Option<HealthRow>, now: int): (r: Option<int>)
    ensures r.Some? <==> latest.Some? && latest.value.lastSuccessTs.Some?
    ensures r.Some? && now >= latest.value.lastSuccessTs.value ==>
              var age := now - latest.value.lastSuccessTs.value;
              0 <= r.value && r.value * 60 <= age < (r.value + 1) * 60
  {
    if latest.None? || latest.value.lastSuccessTs.None? then None
    else Some(TruncDiv(now - latest.value.lastSuccessTs.value, SECONDS_PER_MINUTE))
  }

  /**
   * `compute_health_state`, with the latest health row and the System Stale
   * flag as read from the database. No row, an active System Stale alert,
   * an unknown or over-10-minute age, or coverage under 80% is STALE;
   * otherwise an age of at most 2 minutes with coverage of at least 90% is
   * HEALTHY and anything else DEGRADED.
   */
  function ComputeHealthState(latest: Option<HealthRow>, systemStaleActive: bool, now: int): (r: HealthState)
    ensures latest.None? ==> r == Stale
    ensures latest.Some? && systemStaleActive ==> r == Stale
    ensures var age := SnapshotAgeMinutes(latest, now);
            r == Stale <==>
              latest.None? || systemStaleActive || age.None? || age.value > 10 || latest.value.coveragePct < 80.0
    ensures var age := SnapshotAgeMinutes(latest, now);
            r == Healthy <==>
              && latest.Some? && !systemStaleActive && age.Some?
              && age.value <= 2 && latest.value.coveragePct >= 90.0
  {
    if latest.None? then Stale
    else
      var h := latest.value;
      var age := SnapshotAgeMinutes(latest, now);
      if systemStaleActive then Stale
      else if age.None? || age.value > 10 then Stale
      else if h.coveragePct < 80.0 then Stale
      else if age.value > 2 || h.coveragePct < 90.0 then Degraded
      else Healthy
  }

  /** How bad a badge is: HEALTHY, then DEGRADED, then STALE. */
  function Badness(s: HealthState): nat {
    match s
    case Healthy => 0
    case Degraded => 1
    case Stale => 2
  }

  /** Minutes are truncated before the comparison: 10 min 59 s is still DEGRADED, 11 min is STALE. */
  lemma TruncatedAgeBoundary(h: HealthRow, t: int)
    requires h.lastSuccessTs == Some(t) && h.coveragePct >= 90.0
    ensures ComputeHealthState(Some(h), false, t + 659) == Degraded
    ensures ComputeHealthState(Some(h), false, t + 660) == Stale
    ensures ComputeHealthState(Some(h), false, t + 179) == Healthy
  {
  }

  /** Truncating division by 60 is monotone. */
  lemma TruncDivMonotone(a: int, b: int)
    requires a <= b
    ensures TruncDiv(a, 60) <= TruncDiv(b, 60)
  {
    if 0 <= a {
      assert a / 60 <= b / 60 by {
        DivMonotone(a, b);
      }
    } else if b < 0 {
      DivMonotone(-b, -a);
    }
  }

  lemma DivMonotone(a: nat, b: nat)
    requires a <= b
    ensures a / 60 <= b / 60
  {
    var qa, qb := a / 60, b / 60;
    assert qa * 60 + a % 60 == a;
    assert qb * 60 + b % 60 == b;
  }

  /**
   * A more recent last success and a higher coverage never give a worse
   * badge, the System Stale flag being the same.
   */
  lemma FresherAndFullerNeverWorse(h1: HealthRow, h2: HealthRow, active: bool, now: int)
    requires h1.lastSuccessTs.Some? && h2.lastSuccessTs.Some?
    requires h1.lastSuccessTs.value <= h2.lastSuccessTs.value
    requires h1.coveragePct <= h2.coveragePct
    ensures Badness(ComputeHealthState(Some(h2), active, now)) <= Badness(ComputeHealthState(Some(h1), active, now))
  {
    TruncDivMonotone(now - h2.lastSuccessTs.value, now - h1.lastSuccessTs.value);
  }

  /**
   * Once the System Stale alert has been evaluated at this time, a badge
   * other than STALE means the System Stale check finds ingestion fresh.
   */
  lemma ConsistentWithSystemStale(latest: Option<HealthRow>, state: map<StateKey, AlertStateRow>, now: int)
    requires IsSystemStaleActive(state) == CheckSystemStale(latest, now).0
    ensures ComputeHealthState(latest, IsSystemStaleActive(state), now) != Stale ==> !CheckSystemStale(latest, now).0
  {
  }

  /**
   * Before that evaluation the badge can lag the alarm: 10 min 30 s after
   * the last success the badge is DEGRADED although System Stale already
   * finds ingestion stale.
   */
  lemma BadgeLagsStaleCheck(h: HealthRow, t: int)
    requires h.lastSuccessTs == Some(t) && h.coveragePct >= 90.0
    ensures ComputeHealthState(Some(h), false, t + 630) == Degraded
    ensures CheckSystemStale(Some(h), t + 630).0
  {
  }
}
