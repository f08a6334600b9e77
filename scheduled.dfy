/**
 * Normalisation of the budget's scheduled transactions into dated
 * occurrences: the loop of `get_scheduled_transactions`
 * (monitor.py:158-196), over an already-fetched record list.
 */
module Scheduled {
  import opened Wrappers
  import opened Calendar
  import opened Recurrence

  /**
   * One scheduled-transaction record as the budget service returns it. An
   * optional field is `None` when the record lacks it; a date field holds
   * the date its text names (possibly an impossible one, such as Feb 30).
   */
  datatype ScheduledRecord = ScheduledRecord(
    accountId: string,
    deleted: bool,
    dateNext: Option<Date>,
    dateFirst: Option<Date>,
    frequency: Option<string>,
    amount: int,
    payeeName: Option<string>,
    transferAccountId: Option<string>)

  /** One dated occurrence (the dict built at monitor.py:183-190). */
  datatype Occurrence = Occurrence(
    date: Date,
    amount: int,
    payee: string,
    transferAccountId: Option<string>,
    frequency: string,
    caption: string)  // the entry's "label"; `label` is a keyword in Dafny

  /** `txn.get("frequency", "never")`. */
  function Frequency(r: ScheduledRecord): (f: string)
    ensures r.frequency.None? ==> f == "never"
    ensures r.frequency.Some? ==> f == r.frequency.value
  {
    if r.frequency.Some? then r.frequency.value else "never"
  }

  /** `txn.get("payee_name", "Unknown")`. */
  function Payee(r: ScheduledRecord): (p: string)
    ensures r.payeeName.None? ==> p == "Unknown"
    ensures r.payeeName.Some? ==> p == r.payeeName.value
  {
    if r.payeeName.Some? then r.payeeName.value else "Unknown"
  }

  /** Only the monitored account's live records contribute (monitor.py:169-172). */
  predicate Contributes(r: ScheduledRecord, accountId: string): (c: bool)
    ensures c ==> r.accountId == accountId
    ensures r.deleted ==> !c
  {
    r.accountId == accountId && !r.deleted
  }

  /**
   * The date the expansion starts from (monitor.py:174): `date_next` when
   * present, otherwise `date_first`. `None` is the parse failure: neither
   * is present, or the chosen one is not a calendar date.
   */
  function Anchor(r: ScheduledRecord): (a: Option<Date>)
    ensures a.Some? ==> ValidDate(a.value)
    ensures a.Some? ==> a == (if r.dateNext.Some? then r.dateNext else r.dateFirst)
    ensures a.None? ==> r.dateNext.None? ==> r.dateFirst.None? || !ValidDate(r.dateFirst.value)
    ensures a.None? ==> r.dateNext.Some? ==> !ValidDate(r.dateNext.value)
  {
    var chosen := if r.dateNext.Some? then r.dateNext else r.dateFirst;
    if chosen.Some? && ValidDate(chosen.value) then chosen else None
  }

  /** The label: the payee, then the frequency in parentheses unless it is "never" (monitor.py:182, 189). */
  function Label(payee: string, frequency: string): (l: string)
    ensures frequency == "never" ==> l == payee
    ensures frequency != "never" ==> |l| == |payee| + |frequency| + 3 && l[|payee|..] == " (" + frequency + ")"
  {
    payee + (if frequency != "never" then " (" + frequency + ")" else "")
  }

  /** The label omits the frequency exactly when the frequency is "never". */
  lemma LabelOmitsNever(payee: string, frequency: string)
    ensures Label(payee, frequency) == payee <==> frequency == "never"
    ensures Label(payee, frequency)[..|payee|] == payee
  {
    if frequency != "never" {
      assert |Label(payee, frequency)| > |payee|;
    }
  }

  /** The occurrence a record contributes on `date`. */
  function MakeOccurrence(r: ScheduledRecord, date: Date): Occurrence
  {
    Occurrence(date, r.amount, Payee(r), r.transferAccountId, Frequency(r),
               Label(Payee(r), Frequency(r)))
  }

  /** One occurrence per expanded date, in the expansion's order. */
  function Entries(r: ScheduledRecord, dates: seq<Date>): (es: seq<Occurrence>)
    ensures |es| == |dates|
    ensures forall i :: 0 <= i < |dates| ==> es[i] == MakeOccurrence(r, dates[i])
  {
    if dates == [] then []
    else Entries(r, dates[..|dates| - 1]) + [MakeOccurrence(r, dates[|dates| - 1])]
  }

  /**
   * The occurrences appended by the loop before the sort, or the position
   * of the first contributing record whose anchor date fails to parse.
   */
  function Collected(records: seq<ScheduledRecord>, accountId: string, today: Date, end: Date)
    : Result<seq<Occurrence>, nat>
    requires ValidDate(end)
  {
    if records == [] then Success([])
    else
      var n := |records| - 1;
      match Collected(records[..n], accountId, today, end)
      case Failure(e) => Failure(e)
      case Success(prev) =>
        var r := records[n];
        if !Contributes(r, accountId) then Success(prev)
        else
          match Anchor(r)
          case None => Failure(n)
          case Some(next) => Success(prev + Entries(r, Expansion(next, Frequency(r), today, end)))
  }

  /** What `get_scheduled_transactions` returns, or the failing record's position. */
  function ScheduledTransactions(records: seq<ScheduledRecord>, accountId: string, today: Date, end: Date)
    : Result<seq<Occurrence>, nat>
    requires ValidDate(end)
  {
    match Collected(records, accountId, today, end)
    case Success(ts) => Success(SortByDate(ts))
    case Failure(i) => Failure(i)
  }

  // ---------------------------------------------------------------------
  // The stable sort by date (`transactions.sort(key=...)`, monitor.py:192)
  // ---------------------------------------------------------------------

  /** The occurrences dated `d`, in their order. */
  function DatedOn(s: seq<Occurrence>, d: Date): seq<Occurrence>
  {
    if s == [] then []
    else DatedOn(s[..|s| - 1], d) + (if s[|s| - 1].date == d then [s[|s| - 1]] else [])
  }

  predicate SortedByDate(s: seq<Occurrence>)
  {
    forall i, j :: 0 <= i < j < |s| ==> Le(s[i].date, s[j].date)
  }

  /** Place `x` after every element whose date is not later than its own. */
  function InsertByDate(s: seq<Occurrence>, x: Occurrence): (r: seq<Occurrence>)
    ensures |r| == |s| + 1
  {
    if s == [] then [x]
    else if Lt(x.date, s[|s| - 1].date) then InsertByDate(s[..|s| - 1], x) + [s[|s| - 1]]
    else s + [x]
  }

  /** Python's `list.sort` keyed on the date: a stable sort. */
  function SortByDate(s: seq<Occurrence>): (r: seq<Occurrence>)
    ensures |r| == |s|
  {
    if s == [] then [] else InsertByDate(SortByDate(s[..|s| - 1]), s[|s| - 1])
  }

  lemma {:induction false} InsertByDateSorted(s: seq<Occurrence>, x: Occurrence)
    requires SortedByDate(s)
    ensures SortedByDate(InsertByDate(s, x))
    ensures multiset(InsertByDate(s, x)) == multiset(s) + multiset{x}
    ensures forall y :: y in InsertByDate(s, x) ==> y == x || y in s
  {
    InsertByDatePermutes(s, x);
    if s != [] {
      var init, last := s[..|s| - 1], s[|s| - 1];
      SortedLast(s);
      if Lt(x.date, last.date) {
        InsertByDateSorted(init, x);
        var r := InsertByDate(init, x);
        forall y | y in r
          ensures Le(y.date, last.date)
        {
          if y != x {
            assert y in s;
          }
        }
        AppendSorted(r, last);
      } else {
        AppendSorted(s, x);
      }
    }
  }

  /** Insertion adds exactly `x`, so everything in the result is `x` or was already there. */
  lemma {:induction false} InsertByDatePermutes(s: seq<Occurrence>, x: Occurrence)
    ensures multiset(InsertByDate(s, x)) == multiset(s) + multiset{x}
    ensures forall y :: y in InsertByDate(s, x) ==> y == x || y in s
  {
    if s != [] {
      var init, last := s[..|s| - 1], s[|s| - 1];
      assert s == init + [last];
      if Lt(x.date, last.date) {
        InsertByDatePermutes(init, x);
      }
    }
    forall y | y in InsertByDate(s, x)
      ensures y == x || y in s
    {
      assert y in multiset(InsertByDate(s, x));
    }
  }

  /** A sorted list stays sorted without its last element, which is no earlier than any other. */
  lemma SortedLast(s: seq<Occurrence>)
    requires SortedByDate(s) && s != []
    ensures SortedByDate(s[..|s| - 1])
    ensures forall y :: y in s ==> Le(y.date, s[|s| - 1].date)
  {
    var init := s[..|s| - 1];
    forall i, j | 0 <= i < j < |init|
      ensures Le(init[i].date, init[j].date)
    {
      assert init[i] == s[i] && init[j] == s[j];
    }
    forall y | y in s
      ensures Le(y.date, s[|s| - 1].date)
    {
      var k :| 0 <= k < |s| && s[k] == y;
      if k < |s| - 1 {
        assert Le(s[k].date, s[|s| - 1].date);
      }
    }
  }

  /** Appending an element no earlier than every present one keeps the order. */
  lemma AppendSorted(s: seq<Occurrence>, x: Occurrence)
    requires SortedByDate(s)
    requires forall y :: y in s ==> Le(y.date, x.date)
    ensures SortedByDate(s + [x])
  {
    forall i, j | 0 <= i < j < |s| + 1
      ensures Le((s + [x])[i].date, (s + [x])[j].date)
    {
      if j == |s| {
        assert (s + [x])[i] == s[i] && s[i] in s;
      } else {
        assert (s + [x])[i] == s[i] && (s + [x])[j] == s[j];
      }
    }
  }

  /** Insertion keeps the elements of each date in order and puts `x` after them. */
  lemma {:induction false} InsertByDateStable(s: seq<Occurrence>, x: Occurrence, d: Date)
    ensures DatedOn(InsertByDate(s, x), d) == DatedOn(s, d) + (if x.date == d then [x] else [])
  {
    if s != [] {
      var init, last := s[..|s| - 1], s[|s| - 1];
      if Lt(x.date, last.date) {
        InsertByDateStable(init, x, d);
        var r := InsertByDate(init, x);
        assert (r + [last])[..|r|] == r;
        assert x.date != last.date;
      } else {
        assert (s + [x])[..|s|] == s;
      }
    }
  }

  /** The sort orders by date and permutes its input. */
  lemma {:induction false} SortByDateSorted(s: seq<Occurrence>)
    ensures SortedByDate(SortByDate(s))
    ensures multiset(SortByDate(s)) == multiset(s)
  {
    if s != [] {
      var init := s[..|s| - 1];
      SortByDateSorted(init);
      InsertByDateSorted(SortByDate(init), s[|s| - 1]);
      assert s == init + [s[|s| - 1]];
    }
  }

  /** The sort is stable: occurrences of one date keep their relative order. */
  lemma {:induction false} SortByDateStable(s: seq<Occurrence>, d: Date)
    ensures DatedOn(SortByDate(s), d) == DatedOn(s, d)
  {
    if s != [] {
      var init := s[..|s| - 1];
      SortByDateStable(init, d);
      InsertByDateStable(SortByDate(init), s[|s| - 1], d);
    }
  }

  // ---------------------------------------------------------------------
  // What the normalisation produces
  // ---------------------------------------------------------------------

  /** A failure at one record is the failure of the whole list. */
  lemma {:induction false} FailurePersists(records: seq<ScheduledRecord>, k: nat,
                                           accountId: string, today: Date, end: Date)
    requires ValidDate(end) && k <= |records|
    requires Collected(records[..k], accountId, today, end).Failure?
    ensures Collected(records, accountId, today, end) == Collected(records[..k], accountId, today, end)
    decreases |records| - k
  {
    if k < |records| {
      var n := |records| - 1;
      assert records[..n][..k] == records[..k];
      FailurePersists(records[..n], k, accountId, today, end);
    } else {
      assert records[..k] == records;
    }
  }

  /**
   * `x` is the entry of a contributing record on one of the dates its
   * anchor expands to.
   */
  ghost predicate ComesFrom(records: seq<ScheduledRecord>, accountId: string, today: Date, end: Date,
                            x: Occurrence)
    requires ValidDate(end)
  {
    exists i, next :: 0 <= i < |records| && Contributes(records[i], accountId)
      && Anchor(records[i]) == Some(next)
      && x.date in Expansion(next, Frequency(records[i]), today, end)
      && x == MakeOccurrence(records[i], x.date)
  }

  /**
   * An occurrence is collected exactly when it is the entry of a
   * contributing record on one of the dates its anchor expands to.
   */
  lemma CollectedMembers(records: seq<ScheduledRecord>, accountId: string,
                         today: Date, end: Date, x: Occurrence)
    requires ValidDate(end)
    requires Collected(records, accountId, today, end).Success?
    ensures x in Collected(records, accountId, today, end).value <==>
      ComesFrom(records, accountId, today, end, x)
  {
    if x in Collected(records, accountId, today, end).value {
      var i, next := CollectedSound(records, accountId, today, end, x);
    }
    if ComesFrom(records, accountId, today, end, x) {
      var i, next :| 0 <= i < |records| && Contributes(records[i], accountId)
        && Anchor(records[i]) == Some(next)
        && x.date in Expansion(next, Frequency(records[i]), today, end)
        && x == MakeOccurrence(records[i], x.date);
      CollectedComplete(records, accountId, today, end, x, i, next);
    }
  }

  /** The last record appends its entries when it contributes, and nothing otherwise. */
  lemma CollectedStep(records: seq<ScheduledRecord>, accountId: string, today: Date, end: Date)
    requires ValidDate(end) && records != []
    requires Collected(records, accountId, today, end).Success?
    ensures Collected(records[..|records| - 1], accountId, today, end).Success?
    ensures !Contributes(records[|records| - 1], accountId) ==>
      Collected(records, accountId, today, end) == Collected(records[..|records| - 1], accountId, today, end)
    ensures Contributes(records[|records| - 1], accountId) ==>
      var r := records[|records| - 1];
      Anchor(r).Some? &&
      Collected(records, accountId, today, end).value
        == Collected(records[..|records| - 1], accountId, today, end).value
           + Entries(r, Expansion(Anchor(r).value, Frequency(r), today, end))
  {
  }

  /** Every collected occurrence comes from some contributing record. */
  lemma {:induction false} CollectedSound(records: seq<ScheduledRecord>, accountId: string,
                                          today: Date, end: Date, x: Occurrence)
    returns (i: int, next: Date)
    requires ValidDate(end)
    requires Collected(records, accountId, today, end).Success?
    requires x in Collected(records, accountId, today, end).value
    ensures 0 <= i < |records| && Contributes(records[i], accountId) && Anchor(records[i]) == Some(next)
    ensures x.date in Expansion(next, Frequency(records[i]), today, end)
    ensures x == MakeOccurrence(records[i], x.date)
  {
    var n := |records| - 1;
    var init := records[..n];
    CollectedStep(records, accountId, today, end);
    var prev := Collected(init, accountId, today, end).value;
    var r := records[n];
    if x in prev {
      i, next := CollectedSound(init, accountId, today, end, x);
      assert init[i] == records[i];
    } else {
      assert Contributes(r, accountId);
      i, next := n, Anchor(r).value;
      var dates := Expansion(next, Frequency(r), today, end);
      assert x in Entries(r, dates);
      var k :| 0 <= k < |dates| && Entries(r, dates)[k] == x;
      assert x.date == dates[k];
    }
  }

  /** Every entry of a contributing record on an expanded date is collected. */
  lemma {:induction false} CollectedComplete(records: seq<ScheduledRecord>, accountId: string,
                                             today: Date, end: Date, x: Occurrence, i: int, next: Date)
    requires ValidDate(end)
    requires Collected(records, accountId, today, end).Success?
    requires 0 <= i < |records| && Contributes(records[i], accountId) && Anchor(records[i]) == Some(next)
    requires x.date in Expansion(next, Frequency(records[i]), today, end)
    requires x == MakeOccurrence(records[i], x.date)
    ensures x in Collected(records, accountId, today, end).value
  {
    var n := |records| - 1;
    if i == n {
      CollectedLast(records, accountId, today, end, x, next);
    } else {
      var init := records[..n];
      CollectedExtends(records, accountId, today, end);
      assert init[i] == records[i];
      CollectedComplete(init, accountId, today, end, x, i, next);
    }
  }

  /** The last record's entries on its expanded dates are collected. */
  lemma CollectedLast(records: seq<ScheduledRecord>, accountId: string, today: Date, end: Date,
                      x: Occurrence, next: Date)
    requires ValidDate(end) && records != []
    requires Collected(records, accountId, today, end).Success?
    requires Contributes(records[|records| - 1], accountId) && Anchor(records[|records| - 1]) == Some(next)
    requires x.date in Expansion(next, Frequency(records[|records| - 1]), today, end)
    requires x == MakeOccurrence(records[|records| - 1], x.date)
    ensures x in Collected(records, accountId, today, end).value
  {
    CollectedStep(records, accountId, today, end);
    var r := records[|records| - 1];
    var dates := Expansion(next, Frequency(r), today, end);
    var k :| 0 <= k < |dates| && dates[k] == x.date;
    assert Entries(r, dates)[k] == x;
    assert x in Entries(r, dates);
  }

  /** What the records before the last one collect stays at the front of the collection. */
  lemma CollectedExtends(records: seq<ScheduledRecord>, accountId: string, today: Date, end: Date)
    requires ValidDate(end) && records != []
    requires Collected(records, accountId, today, end).Success?
    ensures Collected(records[..|records| - 1], accountId, today, end).Success?
    ensures forall y :: y in Collected(records[..|records| - 1], accountId, today, end).value ==>
      y in Collected(records, accountId, today, end).value
  {
    CollectedStep(records, accountId, today, end);
  }

  /**
   * The normalised list is sorted by date, holds exactly the collected
   * occurrences, and keeps same-date occurrences in collection order.
   */
  lemma NormalisedOrder(records: seq<ScheduledRecord>, accountId: string, today: Date, end: Date, d: Date)
    requires ValidDate(end)
    requires ScheduledTransactions(records, accountId, today, end).Success?
    ensures var ts := Collected(records, accountId, today, end).value;
      var sorted := ScheduledTransactions(records, accountId, today, end).value;
      SortedByDate(sorted) && multiset(sorted) == multiset(ts) && DatedOn(sorted, d) == DatedOn(ts, d)
  {
    var ts := Collected(records, accountId, today, end).value;
    SortByDateSorted(ts);
    SortByDateStable(ts, d);
  }

  /**
   * Each normalised occurrence comes from a contributing record, carries
   * its amount, payee and transfer account unchanged, falls on a date of
   * its expansion, and is labelled with the record's frequency unless it
   * is "never".
   */
  lemma NormalisedMembers(records: seq<ScheduledRecord>, accountId: string, today: Date, end: Date, x: Occurrence)
    requires ValidDate(end)
    requires ScheduledTransactions(records, accountId, today, end).Success?
    ensures x in ScheduledTransactions(records, accountId, today, end).value <==>
      ComesFrom(records, accountId, today, end, x)
  {
    var ts := Collected(records, accountId, today, end).value;
    SortByDateSorted(ts);
    assert x in ts <==> x in multiset(ts);
    CollectedMembers(records, accountId, today, end, x);
  }

  /** Every normalised entry is dated on a valid day of `[today, end]`. */
  lemma NormalisedInWindow(records: seq<ScheduledRecord>, accountId: string, today: Date, end: Date)
    requires ValidDate(end)
    requires ScheduledTransactions(records, accountId, today, end).Success?
    ensures forall t :: t in ScheduledTransactions(records, accountId, today, end).value ==>
      ValidDate(t.date) && Le(today, t.date) && Le(t.date, end)
  {
    forall t | t in ScheduledTransactions(records, accountId, today, end).value
      ensures ValidDate(t.date) && Le(today, t.date) && Le(t.date, end)
    {
      NormalisedMembers(records, accountId, today, end, t);
      var i, next :| 0 <= i < |records| && Contributes(records[i], accountId)
        && Anchor(records[i]) == Some(next)
        && t.date in Expansion(next, Frequency(records[i]), today, end)
        && t == MakeOccurrence(records[i], t.date);
      ExpansionAscendingInWindow(next, Frequency(records[i]), today, end);
    }
  }

  // ---------------------------------------------------------------------
  // The loop itself
  // ---------------------------------------------------------------------

  /**
   * `get_scheduled_transactions(end_date)` over the fetched records, with
   * `today` passed in; a record whose anchor date fails to parse aborts
   * the call, which the result reports by its position.
   */
  method GetScheduledTransactions(records: seq<ScheduledRecord>, accountId: string, today: Date, end: Date)
    returns (result: Result<seq<Occurrence>, nat>)
    requires ValidDate(end)
    ensures result == ScheduledTransactions(records, accountId, today, end)
  {
    var transactions: seq<Occurrence> := [];
    var i := 0;
    while i < |records|
      invariant 0 <= i <= |records|
      invariant Collected(records[..i], accountId, today, end) == Success(transactions)
    {
      var txn := records[i];
      assert records[..i + 1][..i] == records[..i];
      if txn.accountId == accountId && !txn.deleted {
        var next := Anchor(txn);
        if next.None? {
          FailurePersists(records, i + 1, accountId, today, end);
          return Failure(i);
        }
        var frequency := Frequency(txn);
        var payee := Payee(txn);
        var occurrences := ExpandOccurrences(next.value, frequency, today, end);
        transactions := AppendEntries(transactions, txn, occurrences, frequency, payee);
        assert Collected(records[..i + 1], accountId, today, end) == Success(transactions);
      }
      i := i + 1;
    }
    assert records[..i] == records;
    transactions := SortByDate(transactions);
    return Success(transactions);
  }

  /** The inner loop: one labelled entry per occurrence date of one record. */
  method AppendEntries(transactions0: seq<Occurrence>, txn: ScheduledRecord, occurrences: seq<Date>,
                       frequency: string, payee: string)
    returns (transactions: seq<Occurrence>)
    requires frequency == Frequency(txn) && payee == Payee(txn)
    ensures transactions == transactions0 + Entries(txn, occurrences)
  {
    transactions := transactions0;
    var j := 0;
    while j < |occurrences|
      invariant 0 <= j <= |occurrences|
      invariant transactions == transactions0 + Entries(txn, occurrences[..j])
    {
      assert occurrences[..j + 1][..j] == occurrences[..j];
      var freqLabel := if frequency != "never" then " (" + frequency + ")" else "";
      transactions := transactions + [Occurrence(occurrences[j], txn.amount, payee,
                                                 txn.transferAccountId, frequency, payee + freqLabel)];
      j := j + 1;
    }
    assert occurrences[..j] == occurrences;
  }
}
