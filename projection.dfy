/**
 * The balance projection: `project_minimum_balance` (monitor.py:247-296)
 * with `today` passed in. Pending card payments are first reduced by the
 * scheduled transfers that already cover them; what is left is charged at
 * once, and the balance is then walked day by day through `end`.
 */
module Projection {
  import opened Wrappers
  import opened Calendar
  import opened Dicts
  import opened Scheduled
  import opened CreditCards

  /** The 0.005-dollar tolerance of monitor.py:267, in milliunits. */
  const Epsilon: int := 5

  // ---------------------------------------------------------------------
  // Reconciliation (monitor.py:257-268)
  // ---------------------------------------------------------------------

  /** `t` is a transfer to account `k` (a missing or empty id targets nothing). */
  predicate Targets(t: Occurrence, k: string)
  {
    t.transferAccountId == Some(k) && k != ""
  }

  /** One pass of the reconciliation loop. */
  function ReconcileOne(remaining: Dict<string, Pending>, t: Occurrence): (r: Dict<string, Pending>)
    ensures UniqueKeys(remaining) ==> UniqueKeys(r)
  {
    match t.transferAccountId
    case None => remaining
    case Some(id) =>
      if id == "" then remaining
      else
        match Get(remaining, id)
        case None => remaining
        case Some(p) =>
          var covered := Min(p.amount, Abs(t.amount));
          var updated := Put(remaining, id, p.(amount := p.amount - covered));
          if p.amount - covered <= Epsilon then Remove(updated, id) else updated
  }

  /** `remaining_cc` after the transfers in `txns`. */
  function Reconcile(ccPayments: Dict<string, Pending>, txns: seq<Occurrence>): (r: Dict<string, Pending>)
    ensures UniqueKeys(ccPayments) ==> UniqueKeys(r)
  {
    if txns == [] then ccPayments
    else ReconcileOne(Reconcile(ccPayments, txns[..|txns| - 1]), txns[|txns| - 1])
  }

  /**
   * A transfer to a pending account lowers it by `min(amount, |transfer|)`
   * and deletes it exactly when at most the tolerance is left; any other
   * entry, and any transfer to an absent account, changes nothing.
   */
  lemma ReconcileOneEffect(remaining: Dict<string, Pending>, t: Occurrence, k: string)
    ensures !Targets(t, k) ==> Get(ReconcileOne(remaining, t), k) == Get(remaining, k)
    ensures Targets(t, k) && Get(remaining, k).None? ==> ReconcileOne(remaining, t) == remaining
    ensures Targets(t, k) && Get(remaining, k).Some? ==>
      var p := Get(remaining, k).value;
      var left := p.amount - Min(p.amount, Abs(t.amount));
      (Get(ReconcileOne(remaining, t), k).None? <==> left <= Epsilon)
      && (left > Epsilon ==> Get(ReconcileOne(remaining, t), k) == Some(p.(amount := left)))
  {
    if Targets(t, k) && Get(remaining, k).Some? {
      ReconcileOneTargeted(remaining, t, k);
    }
  }

  /** The targeted case: the entry is lowered, then deleted when at most the tolerance is left. */
  lemma ReconcileOneTargeted(remaining: Dict<string, Pending>, t: Occurrence, k: string)
    requires Targets(t, k) && Get(remaining, k).Some?
    ensures var p := Get(remaining, k).value;
      var left := p.amount - Min(p.amount, Abs(t.amount));
      (Get(ReconcileOne(remaining, t), k).None? <==> left <= Epsilon)
      && (left > Epsilon ==> Get(ReconcileOne(remaining, t), k) == Some(p.(amount := left)))
  {
    var p := Get(remaining, k).value;
    var left := p.amount - Min(p.amount, Abs(t.amount));
    var updated := Put(remaining, k, p.(amount := left));
    if left <= Epsilon {
      assert Get(ReconcileOne(remaining, t), k) == Get(Remove(updated, k), k);
    } else {
      assert Get(ReconcileOne(remaining, t), k) == Get(updated, k);
    }
  }

  predicate NonNegative(d: Dict<string, Pending>)
  {
    forall k :: k in Keys(d) ==> Get(d, k).value.amount >= 0
  }

  /**
   * Reconciliation only shrinks: every surviving entry was pending before,
   * keeps its name, and its amount does not grow and stays non-negative.
   */
  lemma {:induction false} ReconcileShrinks(ccPayments: Dict<string, Pending>, txns: seq<Occurrence>, k: string)
    requires NonNegative(ccPayments)
    ensures NonNegative(Reconcile(ccPayments, txns))
    ensures Get(Reconcile(ccPayments, txns), k).Some? ==>
      Get(ccPayments, k).Some?
      && Get(Reconcile(ccPayments, txns), k).value.name == Get(ccPayments, k).value.name
      && 0 <= Get(Reconcile(ccPayments, txns), k).value.amount <= Get(ccPayments, k).value.amount
  {
    if txns != [] {
      var n := |txns| - 1;
      var prev := Reconcile(ccPayments, txns[..n]);
      ReconcileShrinks(ccPayments, txns[..n], k);
      ReconcileOneEffect(prev, txns[n], k);
      forall k' | k' in Keys(Reconcile(ccPayments, txns))
        ensures Get(Reconcile(ccPayments, txns), k').value.amount >= 0
      {
        ReconcileOneEffect(prev, txns[n], k');
      }
    }
  }

  /** An account no transfer targets keeps its entry (or its absence). */
  lemma {:induction false} ReconcileUntargeted(ccPayments: Dict<string, Pending>, txns: seq<Occurrence>, k: string)
    requires forall t :: t in txns ==> !Targets(t, k)
    ensures Get(Reconcile(ccPayments, txns), k) == Get(ccPayments, k)
  {
    if txns != [] {
      var n := |txns| - 1;
      assert txns[n] in txns;
      assert forall t :: t in txns[..n] ==> t in txns;
      ReconcileUntargeted(ccPayments, txns[..n], k);
      ReconcileOneEffect(Reconcile(ccPayments, txns[..n]), txns[n], k);
    }
  }

  /** Once deleted, an entry stays deleted: later transfers to it are ignored. */
  lemma {:induction false} DeletedStaysDeleted(ccPayments: Dict<string, Pending>, txns: seq<Occurrence>,
                                               i: nat, k: string)
    requires i <= |txns|
    requires Get(Reconcile(ccPayments, txns[..i]), k).None?
    ensures Get(Reconcile(ccPayments, txns), k).None?
    decreases |txns| - i
  {
    if i < |txns| {
      ReconcileOneEffect(Reconcile(ccPayments, txns[..i]), txns[i], k);
      assert txns[..i + 1][..i] == txns[..i];
      DeletedStaysDeleted(ccPayments, txns, i + 1, k);
    } else {
      assert txns[..i] == txns;
    }
  }

  /** An entry that some transfer targeted survives only with more than the tolerance left. */
  lemma {:induction false} TargetedSurvivorAboveTolerance(ccPayments: Dict<string, Pending>,
                                                          txns: seq<Occurrence>, k: string)
    requires exists t :: t in txns && Targets(t, k)
    requires Get(Reconcile(ccPayments, txns), k).Some?
    ensures Get(Reconcile(ccPayments, txns), k).value.amount > Epsilon
  {
    var n := |txns| - 1;
    var prev := Reconcile(ccPayments, txns[..n]);
    ReconcileOneEffect(prev, txns[n], k);
    if !Targets(txns[n], k) {
      var t :| t in txns && Targets(t, k);
      assert t in txns[..n] by {
        var j :| 0 <= j < |txns| && txns[j] == t;
        assert j < n && txns[..n][j] == t;
      }
      TargetedSurvivorAboveTolerance(ccPayments, txns[..n], k);
    }
  }

  /**
   * A $500.00 pending payment and two scheduled transfers to its account,
   * of $200.00 and $300.00: the first leaves $300.00, the second deletes it.
   */
  lemma CoveredInTwoTransfers(first: Occurrence, second: Occurrence)
    requires first.transferAccountId == Some("card") && first.amount == -200000
    requires second.transferAccountId == Some("card") && second.amount == -300000
    ensures Reconcile([("card", Pending("Visa", 500000))], [first])
      == [("card", Pending("Visa", 300000))]
    ensures Reconcile([("card", Pending("Visa", 500000))], [first, second]) == []
  {
    assert [first, second][..1] == [first];
  }

  /**
   * The reconciliation loop: a copy of `cc_payments` whose entries are
   * lowered, or deleted, by the scheduled transfers that cover them.
   */
  method ReconcileCovered(ccPayments: Dict<string, Pending>, txns: seq<Occurrence>)
    returns (remaining: Dict<string, Pending>)
    ensures remaining == Reconcile(ccPayments, txns)
  {
    remaining := ccPayments;
    for i := 0 to |txns|
      invariant remaining == Reconcile(ccPayments, txns[..i])
    {
      assert txns[..i + 1][..i] == txns[..i];
      remaining := ReconcileTransfer(remaining, txns[i]);
    }
    assert txns[..|txns|] == txns;
  }

  /** One pass of the reconciliation loop (monitor.py:260-268). */
  method ReconcileTransfer(remaining0: Dict<string, Pending>, t: Occurrence)
    returns (remaining: Dict<string, Pending>)
    ensures remaining == ReconcileOne(remaining0, t)
  {
    remaining := remaining0;
    var transferId := t.transferAccountId;
    if transferId.Some? && transferId.value != "" && Get(remaining, transferId.value).Some? {
      var entry := Get(remaining, transferId.value).value;
      var covered := Min(entry.amount, Abs(t.amount));
      remaining := Put(remaining, transferId.value, entry.(amount := entry.amount - covered));
      if Get(remaining, transferId.value).value.amount <= Epsilon {
        remaining := Remove(remaining, transferId.value);
      }
    }
  }

  // ---------------------------------------------------------------------
  // Grouping by date (monitor.py:281-283)
  // ---------------------------------------------------------------------

  /** What `txn_by_date.get(d)` is: the transactions of `d` in order, if any. */
  function Grouped(txns: seq<Occurrence>, d: Date): Option<seq<Occurrence>>
  {
    if DatedOn(txns, d) == [] then None else Some(DatedOn(txns, d))
  }

  lemma GroupedAppend(txns: seq<Occurrence>, t: Occurrence, d: Date)
    ensures Grouped(txns + [t], d)
      == if t.date == d then Some(DatedOn(txns, d) + [t]) else Grouped(txns, d)
  {
    assert (txns + [t])[..|txns|] == txns;
    if t.date != d {
      assert DatedOn(txns, d) + [] == DatedOn(txns, d);
    }
  }

  /** `txn_by_date`: every date present maps to its transactions, in their order. */
  method GroupByDate(txns: seq<Occurrence>) returns (byDate: Dict<Date, seq<Occurrence>>)
    ensures UniqueKeys(byDate)
    ensures forall d :: Get(byDate, d) == Grouped(txns, d)
  {
    byDate := [];
    for i := 0 to |txns|
      invariant UniqueKeys(byDate)
      invariant forall d :: Get(byDate, d) == Grouped(txns[..i], d)
    {
      var txn := txns[i];
      assert txns[..i + 1] == txns[..i] + [txn];
      ghost var prev := byDate;
      byDate := Put(byDate, txn.date, GetOr(byDate, txn.date, []) + [txn]);
      forall d
        ensures Get(byDate, d) == Grouped(txns[..i + 1], d)
      {
        GroupedAppend(txns[..i], txn, d);
      }
    }
    assert txns[..|txns|] == txns;
  }

  // ---------------------------------------------------------------------
  // The day-by-day walk (monitor.py:276-293)
  // ---------------------------------------------------------------------

  predicate AllValidDates(txns: seq<Occurrence>)
  {
    forall t :: t in txns ==> ValidDate(t.date)
  }

  function SumAmounts(s: seq<Occurrence>): int
  {
    if s == [] then 0 else SumAmounts(s[..|s| - 1]) + s[|s| - 1].amount
  }

  /** The total of the transactions whose day ordinal lies in `[lo, hi]`. */
  function Through(txns: seq<Occurrence>, lo: int, hi: int): int
    requires AllValidDates(txns)
  {
    if txns == [] then 0
    else
      var t := txns[|txns| - 1];
      Through(txns[..|txns| - 1], lo, hi) + (if lo <= Ordinal(t.date) <= hi then t.amount else 0)
  }

  /** The balance at the end of day `x`: the start plus everything dated `today..x`. */
  function EndOfDay(init: int, txns: seq<Occurrence>, today: Date, x: Date): int
    requires AllValidDates(txns) && ValidDate(today) && ValidDate(x)
  {
    init + Through(txns, Ordinal(today), Ordinal(x))
  }

  /**
   * `(m, md)` is the projected minimum through the day with ordinal `last`:
   * `m` is the least of `init` and every end-of-day balance from `today`
   * through `last`; `md` is `today` when nothing goes below `init`, and
   * otherwise the earliest day whose balance is `m`.
   */
  ghost predicate IsMinimumThrough(init: int, txns: seq<Occurrence>, today: Date, last: int, m: int, md: Date)
    requires AllValidDates(txns) && ValidDate(today)
  {
    m <= init
    && (forall x :: ValidDate(x) && Ordinal(today) <= Ordinal(x) <= last ==> m <= EndOfDay(init, txns, today, x))
    && ((m == init && md == today)
        || (m < init && ValidDate(md) && Ordinal(today) <= Ordinal(md) <= last
            && m == EndOfDay(init, txns, today, md)
            && forall x :: ValidDate(x) && Ordinal(today) <= Ordinal(x) < Ordinal(md) ==>
                 m < EndOfDay(init, txns, today, x)))
  }

  /** The projected minimum through `end`. */
  ghost predicate IsProjectedMinimum(init: int, txns: seq<Occurrence>, today: Date, end: Date, m: int, md: Date)
    requires AllValidDates(txns) && ValidDate(today) && ValidDate(end)
  {
    IsMinimumThrough(init, txns, today, Ordinal(end), m, md)
  }

  /** The projected minimum is a function of its inputs: at most one pair satisfies it. */
  lemma ProjectedMinimumUnique(init: int, txns: seq<Occurrence>, today: Date, end: Date,
                               m1: int, md1: Date, m2: int, md2: Date)
    requires AllValidDates(txns) && ValidDate(today) && ValidDate(end)
    requires IsProjectedMinimum(init, txns, today, end, m1, md1)
    requires IsProjectedMinimum(init, txns, today, end, m2, md2)
    ensures m1 == m2 && md1 == md2
  {
    if m1 < init && m2 < init {
      assert m1 <= EndOfDay(init, txns, today, md2);
      assert m2 <= EndOfDay(init, txns, today, md1);
      OrdinalOrder(md1, md2);
    }
  }

  /** Without a day below the starting balance, the minimum is that balance on `today`. */
  lemma NoLowerDayKeepsToday(init: int, txns: seq<Occurrence>, today: Date, end: Date, m: int, md: Date)
    requires AllValidDates(txns) && ValidDate(today) && ValidDate(end)
    requires IsProjectedMinimum(init, txns, today, end, m, md)
    requires forall x :: ValidDate(x) && Ordinal(today) <= Ordinal(x) <= Ordinal(end) ==>
      init <= EndOfDay(init, txns, today, x)
    ensures m == init && md == today
  {
  }

  /** An `end` before `today` walks no day at all. */
  lemma EndBeforeToday(init: int, txns: seq<Occurrence>, today: Date, end: Date)
    requires AllValidDates(txns) && ValidDate(today) && ValidDate(end) && Lt(end, today)
    ensures IsProjectedMinimum(init, txns, today, end, init, today)
  {
    OrdinalOrder(end, today);
  }

  /** Transactions dated outside `today..x` never reach the balance of day `x`. */
  lemma {:induction false} OutsideNeverApplied(txns: seq<Occurrence>, today: Date, x: Date)
    requires AllValidDates(txns) && ValidDate(today) && ValidDate(x)
    requires forall t :: t in txns ==> Ordinal(t.date) < Ordinal(today) || Ordinal(x) < Ordinal(t.date)
    ensures Through(txns, Ordinal(today), Ordinal(x)) == 0
  {
    if txns != [] {
      var n := |txns| - 1;
      assert txns[n] in txns;
      assert forall t :: t in txns[..n] ==> t in txns;
      OutsideNeverApplied(txns[..n], today, x);
    }
  }

  /** Adding the next day adds exactly that day's transactions. */
  lemma {:induction false} ThroughNextDay(txns: seq<Occurrence>, lo: int, day: Date)
    requires AllValidDates(txns) && ValidDate(day) && lo <= Ordinal(day)
    ensures Through(txns, lo, Ordinal(day)) == Through(txns, lo, Ordinal(day) - 1) + SumAmounts(DatedOn(txns, day))
  {
    if txns != [] {
      var n := |txns| - 1;
      var t := txns[n];
      assert t in txns;
      assert forall u :: u in txns[..n] ==> u in txns;
      ThroughNextDay(txns[..n], lo, day);
      OrdinalOrder(t.date, day);
      var prev := DatedOn(txns[..n], day);
      if t.date == day {
        assert (prev + [t])[..|prev|] == prev;
      } else {
        assert prev + [] == prev;
      }
    }
  }

  /** Nothing is dated in an empty range of days. */
  lemma {:induction false} ThroughEmpty(txns: seq<Occurrence>, lo: int, hi: int)
    requires AllValidDates(txns) && hi < lo
    ensures Through(txns, lo, hi) == 0
  {
    if txns != [] {
      var n := |txns| - 1;
      assert txns[n] in txns;
      assert forall u :: u in txns[..n] ==> u in txns;
      ThroughEmpty(txns[..n], lo, hi);
    }
  }

  /** The walk of monitor.py:285-293 from the balance `init`. */
  method WalkDays(init: int, txns: seq<Occurrence>, byDate: Dict<Date, seq<Occurrence>>, today: Date, end: Date)
    returns (minBalance: int, minDate: Date)
    requires AllValidDates(txns) && ValidDate(today) && ValidDate(end)
    requires forall d :: Get(byDate, d) == Grouped(txns, d)
    ensures IsProjectedMinimum(init, txns, today, end, minBalance, minDate)
  {
    var balance := init;
    minBalance := balance;
    minDate := today;
    var day := today;
    ThroughEmpty(txns, Ordinal(today), Ordinal(today) - 1);
    while Le(day, end)
      invariant ValidDate(day)
      invariant Ordinal(day) == Ordinal(today) || Ordinal(today) < Ordinal(day) <= Ordinal(end) + 1
      invariant balance == init + Through(txns, Ordinal(today), Ordinal(day) - 1)
      invariant IsMinimumThrough(init, txns, today, Ordinal(day) - 1, minBalance, minDate)
      decreases Ordinal(end) - Ordinal(day)
    {
      OrdinalOrder(day, end);
      balance, minBalance, minDate, day := WalkDay(init, txns, byDate, today, day, balance, minBalance, minDate);
    }
    OrdinalOrder(day, end);
  }

  /**
   * One day of the walk: apply the day's group, lower the running minimum
   * when the balance went below it, and move to the next day.
   */
  method WalkDay(init: int, txns: seq<Occurrence>, byDate: Dict<Date, seq<Occurrence>>, today: Date,
                 day: Date, balance0: int, minBalance0: int, minDate0: Date)
    returns (balance: int, minBalance: int, minDate: Date, following: Date)
    requires AllValidDates(txns) && ValidDate(today) && ValidDate(day) && Ordinal(today) <= Ordinal(day)
    requires Get(byDate, day) == Grouped(txns, day)
    requires balance0 == init + Through(txns, Ordinal(today), Ordinal(day) - 1)
    requires IsMinimumThrough(init, txns, today, Ordinal(day) - 1, minBalance0, minDate0)
    ensures ValidDate(following) && Ordinal(following) == Ordinal(day) + 1
    ensures balance == init + Through(txns, Ordinal(today), Ordinal(following) - 1)
    ensures IsMinimumThrough(init, txns, today, Ordinal(following) - 1, minBalance, minDate)
  {
    minBalance, minDate := minBalance0, minDate0;
    balance := CloseDay(init, txns, byDate, today, day, balance0);
    if balance < minBalance {
      MinimumLowered(init, txns, today, day, minBalance, minDate, balance);
      minBalance := balance;
      minDate := day;
    } else {
      MinimumKept(init, txns, today, day, minBalance, minDate, balance);
    }
    following := NextDay(day);
  }

  /** The balance at the end of `day`: the day's group, when there is one, applied. */
  method CloseDay(init: int, txns: seq<Occurrence>, byDate: Dict<Date, seq<Occurrence>>, today: Date,
                  day: Date, balance0: int)
    returns (balance: int)
    requires AllValidDates(txns) && ValidDate(today) && ValidDate(day) && Ordinal(today) <= Ordinal(day)
    requires Get(byDate, day) == Grouped(txns, day)
    requires balance0 == init + Through(txns, Ordinal(today), Ordinal(day) - 1)
    ensures balance == EndOfDay(init, txns, today, day)
  {
    balance := balance0;
    var entry := Get(byDate, day);
    if entry.Some? {
      balance := ApplyDay(balance, entry.value);
    }
    DayBalance(init, txns, today, day, entry);
  }

  /** `for txn in txn_by_date[day]: balance += txn["amount"]`. */
  method ApplyDay(balance0: int, dayTxns: seq<Occurrence>) returns (balance: int)
    ensures balance == balance0 + SumAmounts(dayTxns)
  {
    balance := balance0;
    for j := 0 to |dayTxns|
      invariant balance == balance0 + SumAmounts(dayTxns[..j])
    {
      assert dayTxns[..j + 1][..j] == dayTxns[..j];
      balance := balance + dayTxns[j].amount;
    }
    assert dayTxns[..|dayTxns|] == dayTxns;
  }

  /** The day's group adds exactly the transactions dated that day. */
  lemma DayBalance(init: int, txns: seq<Occurrence>, today: Date, day: Date, entry: Option<seq<Occurrence>>)
    requires AllValidDates(txns) && ValidDate(today) && ValidDate(day) && Ordinal(today) <= Ordinal(day)
    requires entry == Grouped(txns, day)
    ensures init + Through(txns, Ordinal(today), Ordinal(day) - 1)
              + (if entry.Some? then SumAmounts(entry.value) else 0)
            == EndOfDay(init, txns, today, day)
  {
    ThroughNextDay(txns, Ordinal(today), day);
  }

  /** A day whose balance is below the running minimum becomes the new minimum. */
  lemma MinimumLowered(init: int, txns: seq<Occurrence>, today: Date, day: Date, m: int, md: Date, b: int)
    requires AllValidDates(txns) && ValidDate(today) && ValidDate(day) && Ordinal(today) <= Ordinal(day)
    requires IsMinimumThrough(init, txns, today, Ordinal(day) - 1, m, md)
    requires b == EndOfDay(init, txns, today, day) && b < m
    ensures IsMinimumThrough(init, txns, today, Ordinal(day), b, day)
  {
    forall x | ValidDate(x) && Ordinal(x) == Ordinal(day)
      ensures x == day
    {
      OrdinalOrder(x, day);
    }
  }

  /** A day whose balance is not below the running minimum leaves it in place. */
  lemma MinimumKept(init: int, txns: seq<Occurrence>, today: Date, day: Date, m: int, md: Date, b: int)
    requires AllValidDates(txns) && ValidDate(today) && ValidDate(day) && Ordinal(today) <= Ordinal(day)
    requires IsMinimumThrough(init, txns, today, Ordinal(day) - 1, m, md)
    requires b == EndOfDay(init, txns, today, day) && m <= b
    ensures IsMinimumThrough(init, txns, today, Ordinal(day), m, md)
  {
    forall x | ValidDate(x) && Ordinal(x) == Ordinal(day)
      ensures x == day
    {
      OrdinalOrder(x, day);
    }
  }


  /**
   * `project_minimum_balance(current_balance, scheduled_transactions,
   * cc_payments, end_date)` with `today` passed in: the minimum of the
   * projected balance and the earliest day it is reached, the balance
   * starting from `current_balance` less the card payments still uncovered.
   */
  method ProjectMinimumBalance(currentBalance: int, txns: seq<Occurrence>, ccPayments: Dict<string, Pending>,
                               today: Date, end: Date)
    returns (minBalance: int, minDate: Date)
    requires AllValidDates(txns) && ValidDate(today) && ValidDate(end)
    ensures IsProjectedMinimum(currentBalance - Total(Reconcile(ccPayments, txns)), txns, today, end,
                               minBalance, minDate)
  {
    var remaining := ReconcileCovered(ccPayments, txns);
    var unscheduledTotal := Total(remaining);
    var balance := currentBalance - unscheduledTotal;
    var byDate := GroupByDate(txns);
    minBalance, minDate := WalkDays(balance, txns, byDate, today, end);
  }
}
