/** The positioning panel's exposure label and background colour. */
module PositioningPanel {
  import opened Wrappers
  import Classifier

  /**
   * The parts of a formatted exposure: the sign text, the magnitude scaled
   * to its unit (printed with one decimal), the unit suffix and the asset.
   */
  datatype ExposureLabel = ExposureLabel(sign: string, scaled: real, suffix: string, asset: string)

  /** The size of a suffix's unit. */
  function UnitOf(suffix: string): real {
    if suffix == "M" then 1000000.0 else if suffix == "K" then 1000.0 else 1.0
  }

  /**
   * `format_exposure`: "+" for a non-negative exposure and no sign at all
   * for a negative one; millions from 1,000,000, thousands from 1,000,
   * plain units below.
   */
  function FormatExposure(exposure: real, asset: string): (r: ExposureLabel)
    ensures r.sign == (if exposure >= 0.0 then "+" else "")
    ensures r.asset == asset
    ensures r.suffix == "M" <==> Classifier.Abs(exposure) >= 1000000.0
    ensures r.suffix == "K" <==> 1000.0 <= Classifier.Abs(exposure) < 1000000.0
    ensures r.suffix == "" <==> Classifier.Abs(exposure) < 1000.0
    ensures r.scaled >= 0.0 && r.scaled * UnitOf(r.suffix) == Classifier.Abs(exposure)
    ensures r.suffix != "" ==> 1.0 <= r.scaled
  {
    var sign := if exposure >= 0.0 then "+" else "";
    var absExp := Classifier.Abs(exposure);
    if absExp >= 1000000.0 then ExposureLabel(sign, absExp / 1000000.0, "M", asset)
    else if absExp >= 1000.0 then ExposureLabel(sign, absExp / 1000.0, "K", asset)
    else ExposureLabel(sign, absExp, "", asset)
  }

  /** A negative exposure is labelled like its opposite, only without the "+". */
  lemma NegativeLosesSign(x: real, asset: string)
    requires x > 0.0
    ensures FormatExposure(-x, asset) == FormatExposure(x, asset).(sign := "")
  {
  }

  /** A net short of 500,000 BTC reads "500.0K BTC", with no minus sign. */
  lemma ShortExposureExample()
    ensures FormatExposure(-500000.0, "BTC") == ExposureLabel("", 500.0, "K", "BTC")
  {
  }

  const GRAY: string := "#404040"
  const GREEN: string := "#2d5016"
  const RED: string := "#5c1a1a"

  /** The share of flat wallets, `flat_count / total_wallets`. */
  function FlatShare(flatCount: int, totalWallets: int): real
    requires totalWallets != 0
  {
    flatCount as real / totalWallets as real
  }

  /**
   * `get_positioning_color`: `None` when there are no wallets (the division
   * raises); gray when more than 60% are flat or the long share is within
   * 40–60; green for a long share above 60; red for a short share above 60;
   * gray otherwise.
   */
  function GetPositioningColor(longPct: real, shortPct: real, flatCount: int, totalWallets: int): (r: Option<string>)
    ensures r.None? <==> totalWallets == 0
    ensures r == Some(GREEN) <==> totalWallets != 0 && FlatShare(flatCount, totalWallets) <= 0.6 && longPct > 60.0
    ensures r == Some(RED) <==>
              totalWallets != 0 && FlatShare(flatCount, totalWallets) <= 0.6 && longPct < 40.0 && shortPct > 60.0
    ensures r.Some? ==> r.value == GRAY || r.value == GREEN || r.value == RED
  {
    if totalWallets == 0 then None
    else if FlatShare(flatCount, totalWallets) > 0.6 then Some(GRAY)
    else if 40.0 <= longPct <= 60.0 then Some(GRAY)
    else if longPct > 60.0 then Some(GREEN)
    else if shortPct > 60.0 then Some(RED)
    else Some(GRAY)
  }

  /**
   * When the long and short shares of the positioned wallets add up to 100,
   * the final default is unreachable: the colour is decided by the long
   * share alone.
   */
  lemma ComplementarySharesDecideColour(longPct: real, shortPct: real, flatCount: int, totalWallets: int)
    requires totalWallets != 0 && FlatShare(flatCount, totalWallets) <= 0.6
    requires longPct + shortPct == 100.0
    ensures GetPositioningColor(longPct, shortPct, flatCount, totalWallets) ==
              Some(if longPct > 60.0 then GREEN else if longPct < 40.0 then RED else GRAY)
  {
  }
}
