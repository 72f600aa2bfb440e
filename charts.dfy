/**
 * The chart helpers' labels: the trend arrow, the dispersion and exit
 * cluster bands, and the playbook badge colour.
 */
module Charts {
  import opened SignalCore
  import opened Playbook
  import opened ExitCluster

  const ARROW_UP: string := "\U{2191}"
  const ARROW_RIGHT: string := "\U{2192}"
  const ARROW_DOWN: string := "\U{2193}"

  /** The label the signal core stores for a trend. */
  function TrendLabel(t: Trend): string {
    match t
    case Rising => "rising"
    case Flat => "flat"
    case Falling => "falling"
  }

  /** `get_trend_arrow`: up for rising, down for falling, right for flat and for anything unknown. */
  function TrendArrow(trend: string): (r: string)
    ensures r == ARROW_UP <==> trend == "rising"
    ensures r == ARROW_DOWN <==> trend == "falling"
    ensures r == ARROW_RIGHT <==> trend != "rising" && trend != "falling"
  {
    if trend == "rising" then ARROW_UP
    else if trend == "flat" then ARROW_RIGHT
    else if trend == "falling" then ARROW_DOWN
    else ARROW_RIGHT
  }

  /** The arrow tells the three trends apart, and an unknown label shows as flat. */
  lemma ArrowsDistinguishTrends(t1: Trend, t2: Trend, unknown: string)
    requires unknown != "rising" && unknown != "flat" && unknown != "falling"
    ensures TrendArrow(TrendLabel(t1)) == TrendArrow(TrendLabel(t2)) <==> t1 == t2
    ensures TrendArrow(unknown) == TrendArrow(TrendLabel(Flat))
  {
  }

  datatype Band = Low | Medium | High

  /** `get_dispersion_state`: Low below 40, Medium below 60, High from 60. */
  function DispersionState(dispersionIndex: real): (b: Band)
    ensures b == Low <==> dispersionIndex < 40.0
    ensures b == Medium <==> 40.0 <= dispersionIndex < 60.0
    ensures b == High <==> dispersionIndex >= 60.0
  {
    if dispersionIndex < 40.0 then Low
    else if dispersionIndex < 60.0 then Medium
    else High
  }

  /** `get_exit_state`: Low below 16, Medium up to and including 25, High above 25. */
  function ExitState(exitClusterScore: real): (b: Band)
    ensures b == Low <==> exitClusterScore < 16.0
    ensures b == Medium <==> 16.0 <= exitClusterScore <= 25.0
    ensures b == High <==> exitClusterScore > 25.0
  {
    if exitClusterScore < 16.0 then Low
    else if exitClusterScore <= 25.0 then Medium
    else High
  }

  /**
   * The bands shown agree with the playbook matrix: a High band forces
   * No-trade / Defensive, Normal risk needs both bands Low, and a High exit
   * band is exactly the Exit Cluster trigger level.
   */
  lemma BandsMatchPlaybook(cas: real, trend: Trend, dispersion: real, exitCluster: real)
    ensures DispersionState(dispersion) == High || ExitState(exitCluster) == High ==>
              DeterminePlaybook(cas, trend, dispersion, exitCluster) == (NoTrade, Defensive)
    ensures DeterminePlaybook(cas, trend, dispersion, exitCluster).1 == Normal ==>
              DispersionState(dispersion) == Low && ExitState(exitCluster) == Low
    ensures ExitState(exitCluster) == High <==> exitCluster > TRIGGER_ABOVE
  {
  }

  const LONG_COLOR: string := "#2d5f2e"
  const SHORT_COLOR: string := "#5f2d2e"
  const NO_TRADE_COLOR: string := "#4a4a4a"

  /** `get_playbook_color`: muted green, muted red, gray for No-trade and for anything unknown. */
  function PlaybookColor(playbook: string): (c: string)
    ensures c == LONG_COLOR <==> playbook == "Long-only"
    ensures c == SHORT_COLOR <==> playbook == "Short-only"
    ensures c == NO_TRADE_COLOR <==> playbook != "Long-only" && playbook != "Short-only"
  {
    if playbook == "Long-only" then LONG_COLOR
    else if playbook == "Short-only" then SHORT_COLOR
    else if playbook == "No-trade" then NO_TRADE_COLOR
    else NO_TRADE_COLOR
  }

  /** Each playbook label gets its own colour, and an unknown label looks like No-trade. */
  lemma PlaybookColorsDistinct(p1: AllowedPlaybook, p2: AllowedPlaybook, unknown: string)
    requires unknown != "Long-only" && unknown != "Short-only" && unknown != "No-trade"
    ensures PlaybookColor(PlaybookName(p1)) == PlaybookColor(PlaybookName(p2)) <==> p1 == p2
    ensures PlaybookColor(unknown) == PlaybookColor(PlaybookName(NoTrade))
  {
  }
}
