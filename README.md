# YNAB balance monitor — a verified model of the projection pipeline

The monitor watches one YNAB checking account. It expands the account's scheduled
transactions into dated occurrences within a window. It subtracts the credit-card
payments the budget has set aside that no scheduled transfer covers yet. It then
walks the window day by day to find the lowest projected balance and the first day
that balance is reached. An alert fires when that minimum falls below a configured
threshold.

This project models that pipeline once the HTTP fetches, the clock and the
environment have been replaced by parameters. All amounts are integer milliunits,
which is YNAB's own unit.

| file | module | models |
|---|---|---|
| `wrappers.dfy` | `Wrappers` | `Option`, `Result`, `Min`, `Abs` |
| `calendar.dfy` | `Calendar` | `date`, `timedelta(days=…)`, `calendar.monthrange`, date comparison, `_add_months` |
| `recurrence.dfy` | `Recurrence` | `_expand_occurrences`: the frequency table, the one-time branch, the step walk and the twiceAMonth scan, with `sorted(set(…))` |
| `dicts.dfy` | `Dicts` | Python `dict`s as insertion-ordered association lists |
| `scheduled.dfy` | `Scheduled` | the normalisation loop of `get_scheduled_transactions`, with the stable `list.sort` |
| `credit_cards.dfy` | `CreditCards` | `get_cc_payment_amounts`: card accounts, the category filter (`split`/`strip`), the payments and their total |
| `projection.dfy` | `Projection` | `project_minimum_balance`: reconciliation of covered payments, grouping by date, the day-by-day walk |
| `alerts.dfy` | `Alerts` | the threshold decision in `run_check` and the notification types |
| `timing.dfy` | `Timing` | the daily branch of `_next_occurrence` |
| `monitor.dfy` | `Monitor` | `get_end_date` and one `run_check` cycle composed from the above |

The loops of the source are methods with loop invariants:
- `ScanMonths` and `WalkForward` for the expansion;
- `GetScheduledTransactions` and `AppendEntries` for normalisation;
- `CollectCardAccounts`, `CollectPayments` and `CollectGroup` for the card payments;
- `ReconcileCovered`, `GroupByDate`, `WalkDays` and `ApplyDay` for the projection.

Each method is proved equal to a specification function, or to a ghost predicate
in the case of the minimum. The properties the source promises are proved as
lemmas about those specifications.

The model keeps these details of the source:
- A scheduled record's anchor is `date_next`, or `date_first` when `date_next` is missing. A record whose anchor is missing or not a real date stops the whole call, as `strptime` raising does; the model reports which record it was.
- Dicts keep insertion order, so the order of the card payments and the last-wins behaviour on repeated keys are those of the source.
- An empty card-account id and an empty or missing `transfer_account_id` are skipped, as their Python truthiness tests skip them.
- The minimum is updated only on a strict `<`, so the earliest day that reaches the minimum is reported.

Two behaviours of the code are modelled as written:
- The twiceAMonth scan (monitor.py:133-135) steps back one month from the anchor's month, not from the window start's month, to avoid missing a candidate just before the anchor. When the anchor lies well after `start`, in-window candidates before the month preceding the anchor's month are missed, as `TwiceAMonthLookBackFromAnchor` shows.
- The step walk advances from the previous occurrence (monitor.py:154), so a month-end clamp compounds. `MonthlyClampCompounds` shows Jan 31 → Feb 28 → Mar 28.

## Model

| member | source | states |
|---|---|---|
| Calendar.DaysInMonth | monitor.py:91 | a month has between 28 and 31 days, as `calendar.monthrange` gives under the Gregorian leap-year rule |
| Calendar.IsLeapYear | monitor.py:91 | the Gregorian rule `calendar.monthrange` uses: a year is a leap year exactly when it is divisible by 4 and either not by 100 or by 400 |
| Calendar.OrdinalOrder | monitor.py:121 | for valid dates, Python's field-by-field date comparison (`<`, `<=`, `==`) agrees with the order of day ordinals |
| Calendar.NextDay | monitor.py:293 | `day + timedelta(days=1)` is a valid date whose ordinal is one more |
| Calendar.AddDays | monitor.py:71 | `d + timedelta(days=n)` is a valid date whose ordinal is `n` more, for any sign of `n` |
| Calendar.PrevDay | monitor.py:71 | stepping back one day gives a valid date whose ordinal is one less, across month and year boundaries |
| Calendar.AddDaysUnique | monitor.py:105-108 | a valid date equals `AddDays(d, n)` exactly when its ordinal is `n` more than `d`'s |
| Calendar.AddMonths | monitor.py:86-92 | `_add_months(d, n)` is valid, lies `n` months on from `d`, and has day `min(d.day, length of its month)`, never more than `d.day` |
| Calendar.AddMonthsYearMonth | monitor.py:88-90 | the month is `(d.month-1+n) mod 12 + 1` and the year `d.year + floor((d.month-1+n)/12)`, for negative `n` too; a smaller day is the month's last day |
| Calendar.AddMonthsRoundTrip | monitor.py:86-92 | when no clamping happens, adding `n` months and then `-n` months gives back the date |
| Calendar.AddMonthsForward | monitor.py:109-116 | adding one month or more gives a strictly later date |
| Calendar.MonthStartNotAfter | monitor.py:137 | the first of a month is on or before `end` exactly when that month is not after `end`'s month |
| Calendar.ClampLeapFebruary | monitor.py:91 | Jan 31 plus a month is Feb 29 in 2024 and Feb 28 in 2023; Jan 15 minus a month is Dec 15 of the year before |
| Recurrence.RuleFor | monitor.py:104-119 | every stepped frequency of the table steps by at least one day or month; `"never"` is a one-time rule; exactly `"twiceAMonth"` selects the month scan |
| Recurrence.Advance | monitor.py:104-116 | every step function yields a valid date strictly later than its input, by at least one day, so the walk terminates |
| Recurrence.IterateForward | monitor.py:150-154 | after `k` steps the walk is at least `k` days past the anchor |
| Recurrence.WalkInWindow | monitor.py:147-155 | every date of the step walk is valid, lies in `[start, end]` and is not before the anchor |
| Recurrence.WalkAscending | monitor.py:147-155 | the step walk is strictly ascending, so it has no duplicates |
| Recurrence.WalkMembers | monitor.py:147-155 | a date is in the step walk exactly when it is in `[start, end]` and is an iterate of the step function from the anchor |
| Recurrence.WalkMemberIsIterate | monitor.py:150-154 | every walked date is the anchor advanced some number of times |
| Recurrence.WalkMemberLater | monitor.py:151-154 | a walked date other than the current one is walked again from the advanced date, which is later and not past `end` |
| Recurrence.IterateInWalk | monitor.py:151-153 | every iterate that lies in the window is collected |
| Recurrence.PairedDay | monitor.py:132 | `day2` is `day1+15` for `day1 <= 15` and `day1-15` otherwise; it differs from `day1` and lies in 1..30 |
| Recurrence.PairedDayInvolution | monitor.py:132 | on days 1..30 pairing twice gives the day back, and exactly one day of each pair is in the second half of the month |
| Recurrence.DayOfMonth | monitor.py:138-141 | the candidate for a month and target day is valid, in that month, with day `min(target, last day)` |
| Recurrence.DayOfMonthCharacterized | monitor.py:138-141 | a date is a month's candidate for a target exactly when it is valid and its day is `min(target, last day)` |
| Recurrence.TwiceAMonthScanMembers | monitor.py:137-144 | a date is scanned exactly when it is in the window, in a scanned month, and is that month's candidate for `day1` or `day2` |
| Recurrence.InsertUniqueSorted | monitor.py:145 | inserting into a strictly ascending list keeps it strictly ascending and adds exactly the new element |
| Recurrence.InsertUnique | monitor.py:145 | adding one date to a set grows it by at most one element |
| Recurrence.SortedSetCorrect | monitor.py:145 | `sorted(set(xs))` is strictly ascending with exactly the elements of `xs` |
| Recurrence.SortedSet | monitor.py:145 | `sorted(set(xs))` is no longer than `xs` and is empty only when `xs` is |
| Recurrence.AscendingUnique | monitor.py:145 | two strictly ascending lists with the same elements are equal |
| Recurrence.ExpansionAscendingInWindow | monitor.py:95-155 | for every frequency, the expansion is strictly ascending and lies in `[start, end]` |
| Recurrence.TwiceAMonthAscendingInWindow | monitor.py:128-145 | the twiceAMonth dates are sorted, duplicate-free and inside `[start, end]` |
| Recurrence.OneTimeExpansion | monitor.py:119-123 | for `"never"` and unknown codes the result is `[next]` when `start <= next <= end` and empty otherwise |
| Recurrence.SteppedExpansionMembers | monitor.py:147-155 | the stepped expansion is exactly the iterates in the window, and is empty when the anchor is after `end` |
| Recurrence.TwiceAMonthMembers | monitor.py:128-145 | a date is a twiceAMonth occurrence exactly when it is in the window, no earlier than the month before the anchor's, and its day is `min(day1, last)` or `min(day2, last)` |
| Recurrence.ScanThroughEndMembers | monitor.py:136-143 | a scan through `end`'s month holds exactly the in-window dates of the scanned months whose day is `min(day1, last)` or `min(day2, last)` |
| Recurrence.ExpandOccurrences | monitor.py:95-155 | the method returns the expansion, strictly ascending and inside the window |
| Recurrence.ScanTwiceAMonth | monitor.py:128-145 | the twiceAMonth loop followed by `sorted(set(…))` returns the specified dates |
| Recurrence.ScanMonths | monitor.py:133-144 | the month loop collects the candidates of every month from the first one through `end`'s month, in scan order |
| Recurrence.ScanMonth | monitor.py:138-144 | one pass of the month loop appends that month's candidates in scan order and moves to the first of the next month, which keeps the loop's scan state |
| Recurrence.MonthCandidates | monitor.py:138-143 | one month contributes its `day1` and `day2` candidates, each only when inside the window |
| Recurrence.WalkForward | monitor.py:149-155 | the step-walk loop returns the specified walk |
| Recurrence.WalkStep | monitor.py:151-154 | one pass of the walk loop moves to a strictly later date and keeps the collected dates followed by the rest of the walk unchanged |
| Recurrence.MonthlyClampCompounds | monitor.py:154 | a monthly walk from Jan 31 of a common year gives Jan 31, Feb 28, Mar 28: the clamp carries over |
| Recurrence.TwiceAMonthKeepsEarlierDay | monitor.py:131-143 | with anchor Mar 20, Mar 5 is kept although it is before the anchor |
| Recurrence.TwiceAMonthLookBackFromAnchor | monitor.py:133-135 | with anchor May 20 and a window from Mar 1, Mar 5 is missed and Apr 5 is kept: the scan starts a month before the anchor |
| Recurrence.TwiceAMonthDayFive | monitor.py:131-132 | with anchor day 5, every occurrence falls on day 5 or day 20 |
| Dicts.Get | monitor.py:233 | `d.get(k)` finds a value exactly when `k` is a key |
| Dicts.GetOr | monitor.py:283 | the lookup of `setdefault(k, [])` gives the stored value when `k` is a key and the default otherwise |
| Dicts.Put | monitor.py:210 | `d[k] = v` maps `k` to `v` and leaves other keys alone; a present key keeps its place and a new key goes last |
| Dicts.Remove | monitor.py:268 | `del d[k]` removes `k` and leaves other keys alone |
| Scheduled.Anchor | monitor.py:174 | the anchor is `date_next`, or `date_first` when `date_next` is missing; it is absent only when the chosen date is missing or invalid |
| Scheduled.Frequency | monitor.py:175 | a missing frequency defaults to `"never"`; a present one is taken as is |
| Scheduled.Payee | monitor.py:177 | a missing payee name defaults to `"Unknown"`; a present one is taken as is |
| Scheduled.Contributes | monitor.py:169-172 | only records of the monitored account contribute, and deleted records never do |
| Scheduled.LabelOmitsNever | monitor.py:182-189 | the label equals the payee exactly when the frequency is `"never"`, and always starts with the payee |
| Scheduled.Label | monitor.py:182-189 | the label is the payee for `"never"`, and otherwise the payee followed by ` (frequency)` |
| Scheduled.Entries | monitor.py:181-190 | one entry per expanded date, carrying the record's amount, payee, transfer account and frequency |
| Scheduled.InsertByDateSorted | monitor.py:192 | inserting by date keeps the list sorted and adds exactly the one element |
| Scheduled.InsertByDateStable | monitor.py:192 | inserting by date puts the new element after the existing entries of its date |
| Scheduled.InsertByDate | monitor.py:192 | inserting one entry grows the list by exactly one |
| Scheduled.SortByDateSorted | monitor.py:192 | the sort is sorted by date and a permutation of its input |
| Scheduled.SortByDateStable | monitor.py:192 | the sort keeps the relative order of equal dates |
| Scheduled.SortByDate | monitor.py:192 | the sort keeps the list's length |
| Scheduled.FailurePersists | monitor.py:174 | once a record fails to give an anchor, the whole call fails with that record |
| Scheduled.CollectedMembers | monitor.py:168-190 | an entry is collected exactly when it is the entry of a matching, non-deleted record on a date its anchor expands to |
| Scheduled.NormalisedOrder | monitor.py:192 | the result is sorted by date, a permutation of the collected entries, and keeps the collection order within each date |
| Scheduled.NormalisedMembers | monitor.py:168-192 | the normalised list holds exactly the entries of contributing records on their expanded dates |
| Scheduled.NormalisedInWindow | monitor.py:180 | every normalised entry is dated on a valid day in `[today, end]` |
| Scheduled.GetScheduledTransactions | monitor.py:167-192 | the normalisation loop and sort return the specified list, or the failing record |
| Scheduled.AppendEntries | monitor.py:181-190 | the inner loop appends exactly the record's entries, one per occurrence date, in order |
| Scheduled.CollectedSound | monitor.py:168-190 | every collected entry is the entry of some contributing record on a date its anchor expands to |
| Scheduled.CollectedComplete | monitor.py:168-190 | every entry of a contributing record on a date its anchor expands to is collected |
| Scheduled.CollectedLast | monitor.py:180-190 | the last contributing record's entries on its expanded dates are collected |
| Scheduled.CollectedExtends | monitor.py:168-190 | processing one more record keeps everything collected before it |
| CreditCards.CardAccounts | monitor.py:207-210 | the name-to-id map has distinct keys |
| CreditCards.CardAccountsSource | monitor.py:207-210 | a mapped name comes from the last open credit-card account with that name |
| CreditCards.CardAccountsLastWins | monitor.py:208-210 | the last open credit-card account of a name is the one mapped |
| CreditCards.Split | monitor.py:218 | `str.split(",")` gives at least one part, and no part holds a comma |
| CreditCards.SplitJoin | monitor.py:218 | joining the parts of a split with the separator gives back the string |
| CreditCards.StripLeading | monitor.py:218 | leading whitespace is removed: the result is a suffix, everything dropped is whitespace, and it does not start with whitespace |
| CreditCards.StripTrailing | monitor.py:218 | trailing whitespace is removed, in the same sense |
| CreditCards.StripSlice | monitor.py:218 | `str.strip()` is a slice of its input with only whitespace cut from either end |
| CreditCards.StripEnds | monitor.py:218 | a stripped string neither starts nor ends with whitespace, and stripping again changes nothing |
| CreditCards.Strip | monitor.py:218 | `str.strip()` is no longer than its input, does not end with whitespace, and is non-empty when the input holds a non-whitespace character |
| CreditCards.CcFilter | monitor.py:216-218 | the filter is empty exactly when the setting is empty |
| CreditCards.Payments | monitor.py:220-238 | payment keys are distinct and every payment amount is positive |
| CreditCards.PaymentsAppend | monitor.py:224-238 | one more category updates the payments by that category's loop body |
| CreditCards.RecordPaymentEffect | monitor.py:225-238 | an eligible category sets its card's entry to its name and balance; any other category leaves that entry as it was |
| CreditCards.RecordPayment | monitor.py:225-238 | a deleted, hidden or non-positive category changes nothing; otherwise the payments are unchanged or its card's non-empty id is set to its name and balance |
| CreditCards.PaymentsSource | monitor.py:224-238 | every payment comes from the last eligible category for its card |
| CreditCards.PaymentsLastWins | monitor.py:224-238 | the last eligible category for a card is the one recorded |
| CreditCards.PaymentCategoriesMembers | monitor.py:221-224 | a category is considered exactly when it belongs to a group named "Credit Card Payments" |
| CreditCards.PaymentCategoriesAppend | monitor.py:221-224 | a further group adds its categories only when its name is "Credit Card Payments" |
| CreditCards.CcPaymentsEntry | monitor.py:220-238 | every entry comes from a live, visible, admitted category with a positive balance in the payments group, named like an open card whose non-empty id is the key |
| CreditCards.TotalPositive | monitor.py:240 | the total of positive payments is non-negative, and zero exactly when there are none |
| CreditCards.Total | monitor.py:240 | the sum of non-negative amounts is non-negative, and the empty sum is zero |
| CreditCards.GetCcPaymentAmounts | monitor.py:199-244 | the method returns the specified payments and their total |
| CreditCards.CollectCardAccounts | monitor.py:207-210 | the account loop builds the specified name-to-id map |
| CreditCards.CollectPayments | monitor.py:220-238 | the nested group and category loops build the specified payments |
| CreditCards.CollectGroup | monitor.py:224-238 | the category loop of one group extends the payments by that group's categories |
| CreditCards.CollectCategory | monitor.py:225-238 | one pass of the category loop extends the payments by that category, as the specification of the payments does |
| Projection.ReconcileOne | monitor.py:258-268 | one reconciliation step keeps keys distinct |
| Projection.Reconcile | monitor.py:257-268 | reconciliation keeps keys distinct |
| Projection.ReconcileOneEffect | monitor.py:258-268 | a matching transfer reduces its card's entry by `min(remaining, abs(amount))` and deletes it exactly when 5 milliunits or less remain; other entries are untouched, and a transfer to an absent card changes nothing |
| Projection.ReconcileOneTargeted | monitor.py:262-268 | a transfer to a present card lowers its amount by the covered part and deletes it exactly when 5 milliunits or less remain |
| Projection.ReconcileShrinks | monitor.py:261-266 | remaining amounts stay non-negative, never exceed the original ones, keep their names, and no entry appears |
| Projection.ReconcileUntargeted | monitor.py:259-260 | an entry that no transfer targets is unchanged |
| Projection.DeletedStaysDeleted | monitor.py:259-268 | once an entry is deleted, later transfers to that card are ignored |
| Projection.TargetedSurvivorAboveTolerance | monitor.py:267-268 | a targeted entry that survives has more than 5 milliunits remaining |
| Projection.CoveredInTwoTransfers | monitor.py:257-268 | a 500-dollar payment is reduced to 300 dollars by a 200-dollar transfer and removed by a further 300-dollar one |
| Projection.ReconcileCovered | monitor.py:257-268 | the reconciliation loop over a copy of the payments returns the specified remaining payments |
| Projection.ReconcileTransfer | monitor.py:259-268 | one pass of the reconciliation loop performs the specified reconciliation step |
| Projection.GroupedAppend | monitor.py:281-283 | one more transaction appends to its own date's group and leaves the other groups alone |
| Projection.GroupByDate | monitor.py:280-283 | each date maps to its transactions in their original order, and dates without transactions are absent |
| Projection.ProjectedMinimumUnique | monitor.py:286-292 | at most one pair of minimum and day meets the specification, so the walk's result is determined |
| Projection.NoLowerDayKeepsToday | monitor.py:277-278 | when no day ends below the starting balance, the minimum is that balance on `today` |
| Projection.EndBeforeToday | monitor.py:286 | with `end` before `today`, no day is walked and the minimum is the starting balance on `today` |
| Projection.OutsideNeverApplied | monitor.py:286-289 | transactions dated before `today` or after a day never reach that day's balance |
| Projection.ThroughNextDay | monitor.py:287-289 | the running balance through a day is the balance through the day before plus that day's transactions |
| Projection.ThroughEmpty | monitor.py:285-286 | before the first walked day nothing has been applied |
| Projection.WalkDays | monitor.py:285-293 | the walk returns the least of the starting balance and every end-of-day balance from `today` through `end`, with the earliest day reaching it (or `today`) |
| Projection.WalkDay | monitor.py:287-293 | one pass of the day loop extends the running balance and the running minimum with its earliest day by one day, and moves to the next day |
| Projection.CloseDay | monitor.py:287-289 | applying the day's group, when there is one, gives the balance at the end of that day |
| Projection.ApplyDay | monitor.py:287-289 | one day's transactions add their amounts to the balance |
| Projection.DayBalance | monitor.py:287-289 | applying a day's group to the balance through the day before gives that day's end balance |
| Projection.MinimumLowered | monitor.py:290-292 | a day ending strictly below the running minimum becomes the minimum and its day, so the minimum over one more day is kept |
| Projection.MinimumKept | monitor.py:290 | a day ending at or above the running minimum leaves the minimum and its earlier day in place, still the minimum over one more day |
| Projection.ProjectMinimumBalance | monitor.py:247-296 | the starting balance is the current balance less the payments no transfer covers, and the result is the projected minimum from it |
| Alerts.Evaluate | monitor.py:390-391 | an alert fires exactly when the minimum is strictly below the threshold, and its shortfall is the positive distance to it |
| Alerts.AlertSeverity | monitor.py:323 | the alert is a warning exactly when the minimum is negative, and information otherwise |
| Alerts.UpdateSeverity | monitor.py:344 | the routine update is a warning or a success, never plain information |
| Alerts.UpdateStatus | monitor.py:335 | the status is "below threshold" exactly when the minimum is below the threshold, and "on track" otherwise |
| Alerts.UpdateAgreesWithAlert | monitor.py:335-344 | the update says "below threshold" and is a warning exactly when an alert fires; it says "on track" exactly when none does |
| Alerts.NegativeMinimumWarns | monitor.py:323 | with a non-negative threshold, a negative minimum always alerts, as a warning |
| Alerts.EvaluateMonotone | monitor.py:390-391 | a lower minimum alerts whenever a higher one does, with a shortfall at least as large |
| Timing.TimeOfDayBounds | monitor.py:445 | a valid time of day is less than a day long |
| Timing.NextDailyOccurrence | monitor.py:444-448 | the next run exists exactly when hour and minute are in range; it is at `hour:minute:00`, strictly after `after` and at most one day later |
| Timing.NextDailyOccurrenceUnique | monitor.py:444-448 | no other instant at that wall-clock time lies in the day after `after` |
| Monitor.EndDate | monitor.py:63-73 | with `MONITOR_DAYS` set the end is that many days after today; otherwise it is the last day of today's month |
| Monitor.EndOfMonthWindow | monitor.py:72-73 | the month-end window is on or after every day of the month, including today, and the next day is a first of the month |
| Monitor.AlertIffSomeDayBelow | monitor.py:388-391 | an alert fires exactly when the starting balance, or the balance at the end of some day of the window, is below the threshold |
| Monitor.RunCheck | monitor.py:371-398 | one cycle fails exactly when normalisation fails; otherwise it reports the projected minimum over the window and the alert decision, with an alert type only on an alert and an update only when asked for |

## Left out

- Fetching from the YNAB API (`ynab_get`, `get_account_balance`), JSON decoding and `sys.exit` on HTTP errors are left out. Records, accounts, category groups and the balance are parameters.
- `milliunits_to_dollars` and floating-point dollars are left out. Amounts stay integer milliunits, the 0.005-dollar tolerance is 5 milliunits, and the dollar threshold is multiplied by 1000. Float rounding is not modelled.
- `datetime.strptime` is left out. Dates arrive already parsed; an anchor that is missing or not a valid date makes the call fail, where the source raises.
- JSON `null` and an absent key are not told apart: `Option` fields stand for both. For `frequency` and `payee_name`, `null` would pass through in the source, where the model uses the defaults.
- `datetime.now()` and the environment reads are parameters. `run_check` reads the clock three times, in `get_end_date`, `get_scheduled_transactions` and `project_minimum_balance`; the model uses one `today` for all three.
- Python's `date` range (years 1 to 9999) and the `OverflowError` at its ends are not modelled. Years are unbounded Gregorian years.
- `int(MONITOR_DAYS)` and its `ValueError` are not modelled: the setting arrives as an optional integer.
- The printing, the message texts, `_build_notifier` and Apprise delivery are left out. Only the status phrase and notification type that the senders choose are modelled.
- `main`, the signal handlers, the polling loop, `validate_config`, `_parse_schedule`, the interval branch of `_next_occurrence` and `_describe_schedule` are left out. They are process control, wall-clock timing and float parsing.
- The caller's `cc_payments` cannot be mutated under value semantics, so the copy at monitor.py:257 and the new inner dicts at monitor.py:263-266 need no proof.
- Projection.ProjectMinimumBalance: requires every transaction date to be valid, which Python `date` objects always are.
- Timing.NextDailyOccurrence: naive date-times only; time zones and daylight-saving shifts are not modelled.
- Recurrence.RuleFor: the frequency table itself is the function's body; its contract states only that steps are positive, that `"never"` is one-time and that only `"twiceAMonth"` selects the month scan.
