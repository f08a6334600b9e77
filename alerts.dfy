/**
 * The decisions `run_check` and the two notification senders take once
 * the projected minimum is known: whether the minimum breaches the
 * configured threshold, by how much, and which notification type each
 * message carries. Amounts are milliunits; the threshold is configured in
 * whole dollars.
 */
module Alerts {

  /** Apprise's notification types the monitor uses. */
  datatype NotifyType = Info | Success | Warning

  /** The outcome of the threshold test in `run_check`. */
  datatype Decision = Alert(shortfall: int) | Clear

  /** A threshold of whole dollars, in milliunits. */
  function ThresholdMilliunits(thresholdDollars: int): int
  {
    thresholdDollars * 1000
  }

  /**
   * `run_check`: an alert fires exactly when the projected minimum is
   * strictly below the threshold, and the shortfall is the positive
   * distance between them.
   */
  function Evaluate(minBalance: int, thresholdDollars: int): (r: Decision)
    ensures r.Alert? <==> minBalance < ThresholdMilliunits(thresholdDollars)
    ensures r.Alert? ==> r.shortfall > 0 && minBalance + r.shortfall == ThresholdMilliunits(thresholdDollars)
  {
    var threshold := ThresholdMilliunits(thresholdDollars);
    if minBalance < threshold then Alert(threshold - minBalance) else Clear
  }

  /** `send_alert_notification`: a warning when the minimum goes negative, information otherwise. */
  function AlertSeverity(minBalance: int): (t: NotifyType)
    ensures t == Warning <==> minBalance < 0
    ensures t != Success
  {
    if minBalance < 0 then Warning else Info
  }

  /** `send_update_notification`: the status phrase of the routine update. */
  function UpdateStatus(minBalance: int, thresholdDollars: int): (s: string)
    ensures s == "below threshold" || s == "on track"
    ensures s == "below threshold" <==> minBalance < ThresholdMilliunits(thresholdDollars)
  {
    if minBalance < ThresholdMilliunits(thresholdDollars) then "below threshold" else "on track"
  }

  /** `send_update_notification`: a warning when below the threshold, success otherwise. */
  function UpdateSeverity(minBalance: int, thresholdDollars: int): (t: NotifyType)
    ensures t != Info
  {
    if minBalance < ThresholdMilliunits(thresholdDollars) then Warning else Success
  }

  /**
   * The routine update agrees with the alert decision: it reports
   * "below threshold" with a warning exactly when an alert fires, and
   * "on track" with success exactly when none does.
   */
  lemma UpdateAgreesWithAlert(minBalance: int, thresholdDollars: int)
    ensures Evaluate(minBalance, thresholdDollars).Alert? <==>
      UpdateSeverity(minBalance, thresholdDollars) == Warning
    ensures Evaluate(minBalance, thresholdDollars).Alert? <==>
      UpdateStatus(minBalance, thresholdDollars) == "below threshold"
    ensures Evaluate(minBalance, thresholdDollars).Clear? <==>
      UpdateStatus(minBalance, thresholdDollars) == "on track"
  {
    assert "below threshold"[0] != "on track"[0];
  }

  /**
   * With a non-negative threshold, a minimum that goes negative always
   * raises an alert, and that alert is a warning.
   */
  lemma NegativeMinimumWarns(minBalance: int, thresholdDollars: int)
    requires thresholdDollars >= 0 && minBalance < 0
    ensures Evaluate(minBalance, thresholdDollars).Alert?
    ensures AlertSeverity(minBalance) == Warning
  {
  }

  /** A lower minimum breaches the threshold whenever a higher one does, by more. */
  lemma EvaluateMonotone(lower: int, higher: int, thresholdDollars: int)
    requires lower <= higher
    ensures Evaluate(higher, thresholdDollars).Alert? ==>
      Evaluate(lower, thresholdDollars).Alert? &&
      Evaluate(lower, thresholdDollars).shortfall >= Evaluate(higher, thresholdDollars).shortfall
  {
  }
}
