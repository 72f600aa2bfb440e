/** The playbook decision matrix and the derived exposure/stop outputs. */
module Playbook {
  import opened SignalCore

  datatype AllowedPlaybook = LongOnly | ShortOnly | NoTrade

  datatype RiskMode = Normal | Reduced | Defensive

  /** The label stored and displayed for a playbook. */
  function PlaybookName(p: AllowedPlaybook): string {
    match p
    case LongOnly => "Long-only"
    case ShortOnly => "Short-only"
    case NoTrade => "No-trade"
  }

  /**
   * Allowed playbook and risk mode: the overrides in strict order
   * (dispersion at least 60, exit cluster above 25, falling trend with CAS
   * above 60), then the first matching row of the matrix, then No-trade /
   * Reduced.
   */
  function DeterminePlaybook(cas: real, trend: Trend, dispersion: real, exitCluster: real): (r: (AllowedPlaybook, RiskMode))
    ensures dispersion >= 60.0 ==> r == (NoTrade, Defensive)
    ensures exitCluster > 25.0 ==> r == (NoTrade, Defensive)
    ensures dispersion < 60.0 && exitCluster <= 25.0 && trend == Falling && cas > 60.0 ==> r == (NoTrade, Reduced)
    ensures r.0 == LongOnly ==> 60.0 <= cas && dispersion < 60.0 && exitCluster <= 25.0 && r.1 != Defensive
    ensures r.0 == LongOnly && trend == Falling ==> cas == 60.0
    ensures r.0 == ShortOnly ==> cas < 40.0 && dispersion < 60.0 && exitCluster <= 25.0 && r.1 != Defensive
    ensures r.1 == Normal <==>
              (cas > 75.0 && trend == Rising && dispersion < 40.0 && exitCluster < 16.0) ||
              (cas < 25.0 && trend == Falling && dispersion < 40.0 && exitCluster < 16.0)
    ensures r.1 == Normal ==> r.0 != NoTrade
    ensures r.1 == Defensive ==> r.0 == NoTrade
  {
    if dispersion >= 60.0 then (NoTrade, Defensive)
    else if exitCluster > 25.0 then (NoTrade, Defensive)
    else if trend == Falling && cas > 60.0 then (NoTrade, Reduced)
    else
      var diLow := dispersion < 40.0;
      var diMedium := 40.0 <= dispersion < 60.0;
      var ecLow := exitCluster < 16.0;
      var ecMedium := 16.0 <= exitCluster <= 25.0;
      if cas > 75.0 && trend == Rising && diLow && ecLow then (LongOnly, Normal)
      else if cas > 75.0 && trend == Rising && diLow && ecMedium then (LongOnly, Reduced)
      else if cas > 75.0 && trend == Flat && diLow && ecLow then (LongOnly, Reduced)
      else if 60.0 <= cas <= 75.0 && trend == Rising && diLow && ecLow then (LongOnly, Reduced)
      else if 60.0 <= cas <= 75.0 && diMedium && ecLow then (LongOnly, Reduced)
      else if cas < 25.0 && trend == Falling && diLow && ecLow then (ShortOnly, Normal)
      else if cas < 25.0 && trend == Falling && diLow && ecMedium then (ShortOnly, Reduced)
      else if cas < 25.0 && trend == Flat && diLow && ecLow then (ShortOnly, Reduced)
      else if 25.0 <= cas < 40.0 && trend == Falling && diLow && ecLow then (ShortOnly, Reduced)
      else if 25.0 <= cas < 40.0 && diMedium && ecLow then (ShortOnly, Reduced)
      else if 40.0 <= cas <= 60.0 then (NoTrade, Defensive)
      else (NoTrade, Reduced)
  }

  /** Between 40 and 60 the playbook is No-trade, except at exactly 60 where the Long-only rows for 60 to 75 apply first. */
  lemma NeutralZone(cas: real, trend: Trend, dispersion: real, exitCluster: real)
    requires 40.0 <= cas <= 60.0
    ensures DeterminePlaybook(cas, trend, dispersion, exitCluster).0 == NoTrade ||
            (cas == 60.0 && dispersion < 60.0 && exitCluster < 16.0)
    ensures cas < 60.0 ==> DeterminePlaybook(cas, trend, dispersion, exitCluster) == (NoTrade, Defensive)
  {
  }

  /** An input no row matches falls through to No-trade / Reduced. */
  lemma UnmatchedIsReduced()
    ensures DeterminePlaybook(70.0, Flat, 30.0, 10.0) == (NoTrade, Reduced)
  {
  }

  /** At CAS exactly 60 the Long-only row wins over the neutral zone, even with a falling trend. */
  lemma SixtyIsLongWithMediumDispersion()
    ensures DeterminePlaybook(60.0, Falling, 50.0, 10.0) == (LongOnly, Reduced)
  {
  }

  /** Whether to add exposure and whether to tighten stops. */
  datatype Derived = Derived(addExposure: bool, tightenStops: bool)

  /**
   * Add exposure on a rising trend with a low exit cluster and dispersion
   * not high; tighten stops on a high exit cluster, a falling trend or high
   * dispersion.
   */
  function ComputeDerivedOutputs(s: CoreSignals): (d: Derived)
    ensures d.addExposure <==> s.alignmentTrend == Rising && s.exitClusterScore < 16.0 && s.dispersionIndex < 60.0
    ensures d.tightenStops <==> s.exitClusterScore > 25.0 || s.alignmentTrend == Falling || s.dispersionIndex >= 60.0
    ensures !(d.addExposure && d.tightenStops)
  {
    Derived(
      s.alignmentTrend == Rising && s.exitClusterScore < 16.0 && s.dispersionIndex < 60.0,
      s.exitClusterScore > 25.0 || s.alignmentTrend == Falling || s.dispersionIndex >= 60.0)
  }

  /** The four signals with the playbook decision and the derived outputs. */
  datatype FullSignals = FullSignals(
    core: CoreSignals,
    allowedPlaybook: AllowedPlaybook,
    riskMode: RiskMode,
    addExposure: bool,
    tightenStops: bool)

  /** The signals extended with the decision and derived outputs; the signals themselves are kept. */
  function ApplyPlaybookLogic(s: CoreSignals): (f: FullSignals)
    ensures f.core == s
    ensures (f.allowedPlaybook, f.riskMode) == DeterminePlaybook(s.alignmentScore, s.alignmentTrend, s.dispersionIndex, s.exitClusterScore)
    ensures Derived(f.addExposure, f.tightenStops) == ComputeDerivedOutputs(s)
  {
    var (playbook, risk) := DeterminePlaybook(s.alignmentScore, s.alignmentTrend, s.dispersionIndex, s.exitClusterScore);
    var d := ComputeDerivedOutputs(s);
    FullSignals(s, playbook, risk, d.addExposure, d.tightenStops)
  }

  /** Tightening stops always comes with a defensive posture or a non-Long playbook on a falling trend. */
  lemma TightenStopsExcludesNormalLong(s: CoreSignals)
    requires ApplyPlaybookLogic(s).tightenStops
    ensures !(ApplyPlaybookLogic(s).allowedPlaybook == LongOnly && ApplyPlaybookLogic(s).riskMode == Normal)
  {
  }
}
