/**
 * One balance check cycle (`run_check`) over already-fetched YNAB data:
 * the projection window, the scheduled transactions, the credit-card
 * payments, the projected minimum and the alert decision. The clock and
 * the configuration are parameters; fetching and notifying are left out.
 */
module Monitor {
  import opened Wrappers
  import opened Calendar
  import opened Dicts
  import opened Scheduled
  import opened CreditCards
  import opened Projection
  import Alerts

  /** The configuration `run_check` reads from the environment. */
  datatype Settings = Settings(
    accountId: string,           // YNAB_ACCOUNT_ID
    ccCategories: string,        // YNAB_CC_CATEGORIES
    monitorDays: Option<int>,    // MONITOR_DAYS, None when unset or empty
    minBalanceDollars: int)      // MIN_BALANCE

  /**
   * What one cycle decides: the window end, the projected minimum and its
   * day, the threshold decision, the type of the alert notification (sent
   * only on an alert) and the status and type of the routine update (sent
   * only when asked for).
   */
  datatype Report = Report(
    end: Date,
    minBalance: int,
    minDate: Date,
    decision: Alerts.Decision,
    alert: Option<Alerts.NotifyType>,
    update: Option<(string, Alerts.NotifyType)>)

  /**
   * `get_end_date()` with `today` passed in: `MONITOR_DAYS` days after
   * today when set, otherwise the last day of today's month.
   */
  function EndDate(today: Date, monitorDays: Option<int>): (r: Date)
    requires ValidDate(today)
    ensures ValidDate(r)
    ensures monitorDays.Some? ==> Ordinal(r) == Ordinal(today) + monitorDays.value
    ensures monitorDays.None? ==>
      r.year == today.year && r.month == today.month && r.day == DaysInMonth(today.year, today.month)
  {
    match monitorDays
    case Some(n) => AddDays(today, n)
    case None => Date(today.year, today.month, DaysInMonth(today.year, today.month))
  }

  /**
   * Without `MONITOR_DAYS` the window ends on the last day of today's
   * month: no earlier than today, no earlier than any day of the month,
   * and followed by the first of a month.
   */
  lemma EndOfMonthWindow(today: Date, x: Date)
    requires ValidDate(today) && ValidDate(x) && x.year == today.year && x.month == today.month
    ensures Le(today, EndDate(today, None)) && Le(x, EndDate(today, None))
    ensures NextDay(EndDate(today, None)).day == 1
    ensures Ordinal(EndDate(today, None)) - Ordinal(x) == DaysInMonth(x.year, x.month) - x.day
  {
  }

  /**
   * The minimum breaches the threshold exactly when the starting balance
   * or the balance at the end of some day of the window does.
   */
  lemma AlertIffSomeDayBelow(init: int, txns: seq<Occurrence>, today: Date, end: Date,
                             m: int, md: Date, thresholdDollars: int)
    requires AllValidDates(txns) && ValidDate(today) && ValidDate(end)
    requires IsProjectedMinimum(init, txns, today, end, m, md)
    ensures Alerts.Evaluate(m, thresholdDollars).Alert? <==>
      init < Alerts.ThresholdMilliunits(thresholdDollars)
      || (exists x :: ValidDate(x) && Ordinal(today) <= Ordinal(x) <= Ordinal(end)
            && EndOfDay(init, txns, today, x) < Alerts.ThresholdMilliunits(thresholdDollars))
  {
    var threshold := Alerts.ThresholdMilliunits(thresholdDollars);
    if m < threshold && init >= threshold {
      assert m < init;
      assert ValidDate(md) && Ordinal(today) <= Ordinal(md) <= Ordinal(end)
        && EndOfDay(init, txns, today, md) < threshold;
    }
  }

  /**
   * `run_check(send_update)` over the fetched account balance, scheduled
   * transaction records, accounts and category groups, with one `today`.
   * A record whose anchor date does not parse aborts the cycle, reported
   * by its position.
   */
  method RunCheck(settings: Settings, today: Date, balance: int, records: seq<ScheduledRecord>,
                  accounts: seq<Account>, groups: seq<CategoryGroup>, sendUpdate: bool)
    returns (r: Result<Report, nat>)
    requires ValidDate(today)
    ensures var end := EndDate(today, settings.monitorDays);
      var scheduled := ScheduledTransactions(records, settings.accountId, today, end);
      (r.Failure? <==> scheduled.Failure?) && (r.Failure? ==> r.error == scheduled.error)
    ensures r.Success? ==>
      var end := EndDate(today, settings.monitorDays);
      var txns := ScheduledTransactions(records, settings.accountId, today, end).value;
      var pending := CcPayments(accounts, groups, settings.ccCategories);
      var report := r.value;
      report.end == end
      && AllValidDates(txns)
      && IsProjectedMinimum(balance - Total(Reconcile(pending, txns)), txns, today, end,
                            report.minBalance, report.minDate)
      && report.decision == Alerts.Evaluate(report.minBalance, settings.minBalanceDollars)
      && (report.alert.Some? <==> report.decision.Alert?)
      && (report.alert.Some? ==> report.alert.value == Alerts.AlertSeverity(report.minBalance))
      && (report.update.Some? <==> sendUpdate)
      && (report.update.Some? ==>
            report.update.value == (Alerts.UpdateStatus(report.minBalance, settings.minBalanceDollars),
                                    Alerts.UpdateSeverity(report.minBalance, settings.minBalanceDollars)))
  {
    var end := EndDate(today, settings.monitorDays);
    var transactions := GetScheduledTransactions(records, settings.accountId, today, end);
    if transactions.Failure? {
      return Failure(transactions.error);
    }
    NormalisedInWindow(records, settings.accountId, today, end);
    var ccPayments, ccTotal := GetCcPaymentAmounts(accounts, groups, settings.ccCategories);
    var minBalance, minDate := ProjectMinimumBalance(balance, transactions.value, ccPayments, today, end);
    var decision := Alerts.Evaluate(minBalance, settings.minBalanceDollars);
    var alert := None;
    if decision.Alert? {
      alert := Some(Alerts.AlertSeverity(minBalance));
    }
    var update := None;
    if sendUpdate {
      update := Some((Alerts.UpdateStatus(minBalance, settings.minBalanceDollars),
                      Alerts.UpdateSeverity(minBalance, settings.minBalanceDollars)));
    }
    r := Success(Report(end, minBalance, minDate, decision, alert, update));
  }
}
