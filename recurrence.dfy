/**
 * Expansion of a scheduled transaction's recurrence into the dates on which
 * it falls inside a window: `_expand_occurrences` (monitor.py:95-155).
 */
module Recurrence {
  import opened Wrappers
  import opened Calendar

  /** One step of a fixed-step schedule: a number of days or of months. */
  datatype Step = Days(count: int) | Months(count: int)

  /** How a frequency code expands. */
  datatype Rule = OneTime | Stepped(step: Step) | TwiceAMonth

  /**
   * The frequency table (monitor.py:104-117). A code that is not in the
   * table, `"never"` included, is a one-time transaction (monitor.py:119).
   */
  function RuleFor(frequency: string): (r: Rule)
    ensures r.Stepped? ==> r.step.count >= 1
    ensures frequency == "never" ==> r == OneTime
    ensures r == TwiceAMonth <==> frequency == "twiceAMonth"
  {
    if frequency == "daily" then Stepped(Days(1))
    else if frequency == "weekly" then Stepped(Days(7))
    else if frequency == "everyOtherWeek" then Stepped(Days(14))
    else if frequency == "every4Weeks" then Stepped(Days(28))
    else if frequency == "monthly" then Stepped(Months(1))
    else if frequency == "everyOtherMonth" then Stepped(Months(2))
    else if frequency == "every3Months" then Stepped(Months(3))
    else if frequency == "every4Months" then Stepped(Months(4))
    else if frequency == "twiceAMonth" then TwiceAMonth
    else if frequency == "twiceAYear" then Stepped(Months(6))
    else if frequency == "yearly" then Stepped(Months(12))
    else if frequency == "everyOtherYear" then Stepped(Months(24))
    else OneTime
  }

  /** One step of the walk; every step of the table moves at least a day forward. */
  function Advance(d: Date, s: Step): (r: Date)
    requires ValidDate(d) && s.count >= 1
    ensures ValidDate(r) && Lt(d, r)
    ensures Ordinal(d) + 1 <= Ordinal(r)
  {
    match s
    case Days(n) => OrdinalOrder(d, AddDays(d, n)); AddDays(d, n)
    case Months(n) => AddMonthsForward(d, n); AddMonths(d, n)
  }

  /** The k-th date of the walk, each step taken from the previous date. */
  function Iterate(d: Date, s: Step, k: nat): (r: Date)
    requires ValidDate(d) && s.count >= 1
    ensures ValidDate(r)
    decreases k
  {
    if k == 0 then d else Iterate(Advance(d, s), s, k - 1)
  }

  lemma {:induction false} IterateForward(d: Date, s: Step, k: nat)
    requires ValidDate(d) && s.count >= 1
    ensures Ordinal(d) + k <= Ordinal(Iterate(d, s, k))
    decreases k
  {
    if k > 0 {
      var n := Advance(d, s);
      assert Iterate(d, s, k) == Iterate(n, s, k - 1);
      IterateForward(n, s, k - 1);
    }
  }

  // ---------------------------------------------------------------------
  // Step walk (monitor.py:147-155)
  // ---------------------------------------------------------------------

  /** The dates the walk from `d` records before it passes `end`. */
  function Walk(d: Date, s: Step, start: Date, end: Date): seq<Date>
    requires ValidDate(d) && ValidDate(end) && s.count >= 1
    decreases Ordinal(end) - Ordinal(d)
  {
    if !Le(d, end) then []
    else
      (OrdinalOrder(d, end);
       (if Le(start, d) then [d] else []) + Walk(Advance(d, s), s, start, end))
  }

  lemma {:induction false} WalkInWindow(d: Date, s: Step, start: Date, end: Date)
    requires ValidDate(d) && ValidDate(end) && s.count >= 1
    ensures forall x :: x in Walk(d, s, start, end) ==>
      ValidDate(x) && Le(start, x) && Le(x, end) && Le(d, x)
    decreases Ordinal(end) - Ordinal(d)
  {
    if Le(d, end) {
      OrdinalOrder(d, end);
      var n := Advance(d, s);
      WalkInWindow(n, s, start, end);
    }
  }

  lemma {:induction false} WalkAscending(d: Date, s: Step, start: Date, end: Date)
    requires ValidDate(d) && ValidDate(end) && s.count >= 1
    ensures StrictlyAscending(Walk(d, s, start, end))
    decreases Ordinal(end) - Ordinal(d)
  {
    if Le(d, end) {
      OrdinalOrder(d, end);
      var n := Advance(d, s);
      WalkAscending(n, s, start, end);
      WalkInWindow(n, s, start, end);
      var tail := Walk(n, s, start, end);
      if Le(start, d) {
        var w := [d] + tail;
        forall i, j | 0 <= i < j < |w| ensures Lt(w[i], w[j]) {
          if i == 0 {
            assert w[j] in tail;
          } else {
            assert w[i] == tail[i - 1] && w[j] == tail[j - 1];
          }
        }
      }
    }
  }

  /**
   * The walk records exactly the iterates of the anchor that lie in the
   * window; the anchor itself is the 0-th iterate.
   */
  lemma WalkMembers(d: Date, s: Step, start: Date, end: Date, x: Date)
    requires ValidDate(d) && ValidDate(end) && s.count >= 1
    ensures x in Walk(d, s, start, end) <==>
      Le(start, x) && Le(x, end) && exists k: nat :: Iterate(d, s, k) == x
  {
    if x in Walk(d, s, start, end) {
      WalkInWindow(d, s, start, end);
      var k := WalkMemberIsIterate(d, s, start, end, x);
    }
    if Le(start, x) && Le(x, end) && exists k: nat :: Iterate(d, s, k) == x {
      var k: nat :| Iterate(d, s, k) == x;
      IterateInWalk(d, s, start, end, k);
    }
  }

  lemma {:induction false} WalkMemberIsIterate(d: Date, s: Step, start: Date, end: Date, x: Date) returns (k: nat)
    requires ValidDate(d) && ValidDate(end) && s.count >= 1
    requires x in Walk(d, s, start, end)
    ensures Iterate(d, s, k) == x
    decreases Ordinal(end) - Ordinal(d)
  {
    if x == d {
      k := 0;
    } else {
      WalkMemberLater(d, s, start, end, x);
      var j := WalkMemberIsIterate(Advance(d, s), s, start, end, x);
      k := j + 1;
    }
  }

  /** A member of a walk other than its first date is a member of the walk from the next date. */
  lemma WalkMemberLater(d: Date, s: Step, start: Date, end: Date, x: Date)
    requires ValidDate(d) && ValidDate(end) && s.count >= 1
    requires x in Walk(d, s, start, end) && x != d
    ensures Ordinal(d) <= Ordinal(end) && Ordinal(d) < Ordinal(Advance(d, s))
    ensures x in Walk(Advance(d, s), s, start, end)
  {
    OrdinalOrder(d, end);
  }

  lemma {:induction false} IterateInWalk(d: Date, s: Step, start: Date, end: Date, k: nat)
    requires ValidDate(d) && ValidDate(end) && s.count >= 1
    requires Le(start, Iterate(d, s, k)) && Le(Iterate(d, s, k), end)
    ensures Iterate(d, s, k) in Walk(d, s, start, end)
    decreases k
  {
    IterateForward(d, s, k);
    OrdinalOrder(Iterate(d, s, k), end);
    OrdinalOrder(d, end);
    if k > 0 {
      IterateInWalk(Advance(d, s), s, start, end, k - 1);
    }
  }

  // ---------------------------------------------------------------------
  // twiceAMonth (monitor.py:128-145)
  // ---------------------------------------------------------------------

  /** The day paired with the anchor's day of month (monitor.py:132). */
  function PairedDay(day1: int): (day2: int)
    requires 1 <= day1 <= 31
    ensures 1 <= day2 <= 30 && day2 != day1
    ensures day1 <= 15 ==> day2 == day1 + 15
    ensures day1 > 15 ==> day2 == day1 - 15
  {
    if day1 <= 15 then day1 + 15 else day1 - 15
  }

  /** Pairing is its own inverse on days 1..30: each day of a pair names the other. */
  lemma PairedDayInvolution(day1: int)
    requires 1 <= day1 <= 30
    ensures PairedDay(PairedDay(day1)) == day1
    ensures PairedDay(day1) <= 15 <==> day1 > 15
  {
  }

  /** `date(y, m, min(target, last))` in the month with index `mi`. */
  function DayOfMonth(mi: int, target: int): (r: Date)
    requires target >= 1
    ensures ValidDate(r) && MonthIndex(r) == mi
    ensures r.day == Min(target, DaysInMonth(r.year, r.month))
  {
    var s := MonthStart(mi);
    Date(s.year, s.month, Min(target, DaysInMonth(s.year, s.month)))
  }

  /** A candidate is kept only inside `[start, end]` (monitor.py:142). */
  function Kept(c: Date, start: Date, end: Date): seq<Date>
  {
    if Le(start, c) && Le(c, end) then [c] else []
  }

  /** The candidates appended while scanning the months `first .. stop - 1` in order. */
  function TwiceAMonthScan(first: int, stop: int, day1: int, day2: int, start: Date, end: Date): seq<Date>
    requires day1 >= 1 && day2 >= 1
    decreases stop - first
  {
    if stop <= first then []
    else
      TwiceAMonthScan(first, stop - 1, day1, day2, start, end)
      + (Kept(DayOfMonth(stop - 1, day1), start, end) + Kept(DayOfMonth(stop - 1, day2), start, end))
  }

  lemma DayOfMonthCharacterized(x: Date, target: int)
    requires target >= 1
    ensures x == DayOfMonth(MonthIndex(x), target) <==>
      ValidDate(x) && x.day == Min(target, DaysInMonth(x.year, x.month))
  {
    if ValidDate(x) {
      MonthIndexDetermines(x);
    }
  }

  lemma {:induction false} TwiceAMonthScanMembers(first: int, stop: int, day1: int, day2: int, start: Date, end: Date, x: Date)
    requires day1 >= 1 && day2 >= 1
    ensures x in TwiceAMonthScan(first, stop, day1, day2, start, end) <==>
      Le(start, x) && Le(x, end) && first <= MonthIndex(x) < stop
      && (x == DayOfMonth(MonthIndex(x), day1) || x == DayOfMonth(MonthIndex(x), day2))
    decreases stop - first
  {
    if first < stop {
      TwiceAMonthScanMembers(first, stop - 1, day1, day2, start, end, x);
    }
  }

  // ---------------------------------------------------------------------
  // sorted(set(dates))
  // ---------------------------------------------------------------------

  function InsertUnique(x: Date, s: seq<Date>): (r: seq<Date>)
    ensures |s| <= |r| <= |s| + 1
  {
    if s == [] then [x]
    else if x == s[0] then s
    else if Lt(x, s[0]) then [x] + s
    else [s[0]] + InsertUnique(x, s[1..])
  }

  /** Python's `sorted(set(xs))` on dates. */
  function SortedSet(xs: seq<Date>): (r: seq<Date>)
    ensures |r| <= |xs|
    ensures xs != [] ==> r != []
  {
    if xs == [] then [] else InsertUnique(xs[|xs| - 1], SortedSet(xs[..|xs| - 1]))
  }

  lemma {:induction false} InsertUniqueSorted(x: Date, s: seq<Date>)
    requires StrictlyAscending(s)
    ensures StrictlyAscending(InsertUnique(x, s))
    ensures forall y :: y in InsertUnique(x, s) <==> y == x || y in s
  {
    if s != [] && x != s[0] && !Lt(x, s[0]) {
      InsertUniqueSorted(x, s[1..]);
      var r := InsertUnique(x, s[1..]);
      assert forall j :: 0 <= j < |r| ==> Lt(s[0], r[j]) by {
        forall j | 0 <= j < |r| ensures Lt(s[0], r[j]) {
          assert r[j] in r;
        }
      }
    }
  }

  /** `SortedSet(xs)` is ascending without repeats and holds exactly the elements of `xs`. */
  lemma {:induction false} SortedSetCorrect(xs: seq<Date>)
    ensures StrictlyAscending(SortedSet(xs))
    ensures forall y :: y in SortedSet(xs) <==> y in xs
  {
    if xs != [] {
      var init := xs[..|xs| - 1];
      SortedSetCorrect(init);
      InsertUniqueSorted(xs[|xs| - 1], SortedSet(init));
      assert xs == init + [xs[|xs| - 1]];
    }
  }

  /** Two strictly ascending sequences with the same elements are equal. */
  lemma {:induction false} AscendingUnique(a: seq<Date>, b: seq<Date>)
    requires StrictlyAscending(a) && StrictlyAscending(b)
    requires forall y :: y in a <==> y in b
    ensures a == b
  {
    assert a != [] ==> a[0] in a;
    assert b != [] ==> b[0] in b;
    if a != [] && b != [] {
      assert a[0] == b[0] by {
        assert a[0] in b && b[0] in a;
      }
      forall y ensures y in a[1..] <==> y in b[1..] {
        if y in a[1..] {
          var i :| 1 <= i < |a| && a[i] == y;
          assert Lt(a[0], y);
          assert y in b;
        }
        if y in b[1..] {
          var i :| 1 <= i < |b| && b[i] == y;
          assert Lt(b[0], y);
          assert y in a;
        }
      }
      AscendingUnique(a[1..], b[1..]);
    }
  }

  // ---------------------------------------------------------------------
  // The expansion as a whole
  // ---------------------------------------------------------------------

  /** What `_expand_occurrences(next, frequency, start, end)` returns. */
  function Expansion(next: Date, frequency: string, start: Date, end: Date): seq<Date>
    requires ValidDate(next) && ValidDate(end)
  {
    match RuleFor(frequency)
    case OneTime => Kept(next, start, end)
    case TwiceAMonth => TwiceAMonthDates(next, start, end)
    case Stepped(s) => Walk(next, s, start, end)
  }

  /** twiceAMonth: every month from the one before the anchor's through `end`'s. */
  function TwiceAMonthDates(next: Date, start: Date, end: Date): seq<Date>
    requires ValidDate(next) && ValidDate(end)
  {
    SortedSet(TwiceAMonthScan(MonthIndex(next) - 1, MonthIndex(end) + 1, next.day, PairedDay(next.day), start, end))
  }

  /** For every frequency the dates ascend strictly and lie in `[start, end]`. */
  lemma ExpansionAscendingInWindow(next: Date, frequency: string, start: Date, end: Date)
    requires ValidDate(next) && ValidDate(end)
    ensures StrictlyAscending(Expansion(next, frequency, start, end))
    ensures forall x :: x in Expansion(next, frequency, start, end) ==>
      ValidDate(x) && Le(start, x) && Le(x, end)
  {
    match RuleFor(frequency)
    case OneTime =>
    case TwiceAMonth => TwiceAMonthAscendingInWindow(next, start, end);
    case Stepped(s) =>
      WalkAscending(next, s, start, end);
      WalkInWindow(next, s, start, end);
  }

  lemma TwiceAMonthAscendingInWindow(next: Date, start: Date, end: Date)
    requires ValidDate(next) && ValidDate(end)
    ensures StrictlyAscending(TwiceAMonthDates(next, start, end))
    ensures forall x :: x in TwiceAMonthDates(next, start, end) ==>
      ValidDate(x) && Le(start, x) && Le(x, end)
  {
    var day1 := next.day;
    var scan := TwiceAMonthScan(MonthIndex(next) - 1, MonthIndex(end) + 1, day1, PairedDay(day1), start, end);
    SortedSetCorrect(scan);
    forall x | x in scan
      ensures ValidDate(x) && Le(start, x) && Le(x, end)
    {
      TwiceAMonthScanMembers(MonthIndex(next) - 1, MonthIndex(end) + 1, day1, PairedDay(day1), start, end, x);
    }
  }

  /** One-time and unknown codes: the anchor itself, exactly when it is in the window. */
  lemma OneTimeExpansion(next: Date, frequency: string, start: Date, end: Date)
    requires ValidDate(next) && ValidDate(end)
    requires RuleFor(frequency) == OneTime
    ensures |Expansion(next, frequency, start, end)| <= 1
    ensures Expansion(next, frequency, start, end) != [] <==> Le(start, next) && Le(next, end)
    ensures forall x :: x in Expansion(next, frequency, start, end) ==> x == next
  {
  }

  /** Stepped codes: exactly the in-window iterates of the anchor. */
  lemma SteppedExpansionMembers(next: Date, frequency: string, start: Date, end: Date, x: Date)
    requires ValidDate(next) && ValidDate(end)
    requires RuleFor(frequency).Stepped?
    ensures x in Expansion(next, frequency, start, end) <==>
      Le(start, x) && Le(x, end) && exists k: nat :: Iterate(next, RuleFor(frequency).step, k) == x
    ensures Lt(end, next) ==> Expansion(next, frequency, start, end) == []
  {
    WalkMembers(next, RuleFor(frequency).step, start, end, x);
  }

  /**
   * twiceAMonth: exactly the in-window dates, from the month before the
   * anchor's month on, whose day is the anchor's day or its paired day,
   * each clamped to the month's length.
   */
  lemma TwiceAMonthMembers(next: Date, start: Date, end: Date, x: Date)
    requires ValidDate(next) && ValidDate(end)
    ensures x in TwiceAMonthDates(next, start, end) <==>
      ValidDate(x) && Le(start, x) && Le(x, end) && MonthIndex(next) - 1 <= MonthIndex(x)
      && (x.day == Min(next.day, DaysInMonth(x.year, x.month))
          || x.day == Min(PairedDay(next.day), DaysInMonth(x.year, x.month)))
  {
    var day1 := next.day;
    var scan := TwiceAMonthScan(MonthIndex(next) - 1, MonthIndex(end) + 1, day1, PairedDay(day1), start, end);
    SortedSetCorrect(scan);
    ScanThroughEndMembers(MonthIndex(next) - 1, day1, PairedDay(day1), start, end, x);
  }

  /** A scan through `end`'s month holds exactly the clamped candidate days in the window. */
  lemma ScanThroughEndMembers(first: int, day1: int, day2: int, start: Date, end: Date, x: Date)
    requires day1 >= 1 && day2 >= 1 && ValidDate(end)
    ensures x in TwiceAMonthScan(first, MonthIndex(end) + 1, day1, day2, start, end) <==>
      ValidDate(x) && Le(start, x) && Le(x, end) && first <= MonthIndex(x)
      && (x.day == Min(day1, DaysInMonth(x.year, x.month))
          || x.day == Min(day2, DaysInMonth(x.year, x.month)))
  {
    TwiceAMonthScanMembers(first, MonthIndex(end) + 1, day1, day2, start, end, x);
    DayOfMonthCharacterized(x, day1);
    DayOfMonthCharacterized(x, day2);
    if ValidDate(x) {
      MonthIndexOrder(x, end);
    }
  }

  /**
   * `_expand_occurrences` (monitor.py:95-155): one-time codes inline, the
   * twiceAMonth month scan and the step walk in the two methods below.
   */
  method ExpandOccurrences(next: Date, frequency: string, start: Date, end: Date) returns (dates: seq<Date>)
    requires ValidDate(next) && ValidDate(end)
    ensures dates == Expansion(next, frequency, start, end)
    ensures StrictlyAscending(dates)
    ensures forall x :: x in dates ==> ValidDate(x) && Le(start, x) && Le(x, end)
  {
    ExpansionAscendingInWindow(next, frequency, start, end);
    var rule := RuleFor(frequency);
    match rule
    case OneTime =>
      if Le(start, next) && Le(next, end) {
        dates := [next];
      } else {
        dates := [];
      }
    case TwiceAMonth =>
      dates := ScanTwiceAMonth(next, start, end);
    case Stepped(step) =>
      dates := WalkForward(next, step, start, end);
  }

  /** The twiceAMonth branch (monitor.py:128-145). */
  method ScanTwiceAMonth(next: Date, start: Date, end: Date) returns (dates: seq<Date>)
    requires ValidDate(next) && ValidDate(end)
    ensures dates == TwiceAMonthDates(next, start, end)
  {
    var day1 := next.day;
    var day2 := if day1 <= 15 then day1 + 15 else day1 - 15;
    var d := next.(day := 1);
    d := AddMonths(d, -1);
    assert MonthIndex(d) == MonthIndex(next) - 1 && day2 == PairedDay(next.day);
    var candidates := ScanMonths(d, day1, day2, start, end);
    assert candidates == TwiceAMonthScan(MonthIndex(next) - 1, MonthIndex(end) + 1, next.day, PairedDay(next.day), start, end);
    dates := SortedSet(candidates);
  }

  /** The month loop of the twiceAMonth branch (monitor.py:136-144): from the
      month of `d` through the month of `end`, collect both candidates. */
  method ScanMonths(d0: Date, day1: int, day2: int, start: Date, end: Date) returns (dates: seq<Date>)
    requires ValidDate(d0) && d0.day == 1 && ValidDate(end) && day1 >= 1 && day2 >= 1
    ensures dates == TwiceAMonthScan(MonthIndex(d0), MonthIndex(end) + 1, day1, day2, start, end)
  {
    dates := [];
    var d := d0;
    ghost var first := MonthIndex(d0);
    ghost var scanned := first;
    while Le(d, end)
      invariant ScanState(dates, d, first, scanned, day1, day2, start, end)
      decreases MonthIndex(end) - scanned
    {
      dates, d := ScanMonth(dates, d, first, scanned, day1, day2, start, end);
      scanned := scanned + 1;
    }
    ScanFinished(dates, d, first, scanned, day1, day2, start, end);
  }

  /**
   * The state of the month loop: `d` is the first day of the next month to
   * scan, and `dates` holds the candidates of the months scanned so far.
   */
  predicate ScanState(dates: seq<Date>, d: Date, first: int, scanned: int,
                      day1: int, day2: int, start: Date, end: Date)
    requires day1 >= 1 && day2 >= 1
  {
    ValidDate(d) && d.day == 1 && MonthIndex(d) == scanned
    && (scanned == first || first <= scanned <= MonthIndex(end) + 1)
    && dates == TwiceAMonthScan(first, scanned, day1, day2, start, end)
  }

  /** A scan stopped after the end month has scanned all there is to scan. */
  lemma ScanFinished(dates: seq<Date>, d: Date, first: int, scanned: int,
                     day1: int, day2: int, start: Date, end: Date)
    requires day1 >= 1 && day2 >= 1 && ValidDate(end)
    requires ScanState(dates, d, first, scanned, day1, day2, start, end) && !Le(d, end)
    ensures dates == TwiceAMonthScan(first, MonthIndex(end) + 1, day1, day2, start, end)
  {
    FirstOfMonth(d, end);
  }

  /** One pass of the month loop: the month's candidates, then the next month's first day. */
  method ScanMonth(dates0: seq<Date>, d: Date, ghost first: int, ghost scanned: int,
                   day1: int, day2: int, start: Date, end: Date)
    returns (dates: seq<Date>, following: Date)
    requires day1 >= 1 && day2 >= 1 && ValidDate(end)
    requires ScanState(dates0, d, first, scanned, day1, day2, start, end) && Le(d, end)
    ensures ScanState(dates, following, first, scanned + 1, day1, day2, start, end)
    ensures scanned <= MonthIndex(end)
  {
    FirstOfMonth(d, end);
    ScanStep(first, d, day1, day2, start, end);
    var found := MonthCandidates(d, day1, day2, start, end);
    dates := dates0 + found;
    following := AddMonths(d, 1);
  }

  /** The inner `for target_day in (day1, day2)` of the scan (monitor.py:138-143). */
  method MonthCandidates(d: Date, day1: int, day2: int, start: Date, end: Date) returns (found: seq<Date>)
    requires 1 <= d.month <= 12
    ensures found == Kept(Date(d.year, d.month, Min(day1, DaysInMonth(d.year, d.month))), start, end)
                   + Kept(Date(d.year, d.month, Min(day2, DaysInMonth(d.year, d.month))), start, end)
  {
    found := [];
    var lastDay := DaysInMonth(d.year, d.month);
    var c1 := Date(d.year, d.month, Min(day1, lastDay));
    if Le(start, c1) && Le(c1, end) {
      found := found + [c1];
    }
    var c2 := Date(d.year, d.month, Min(day2, lastDay));
    if Le(start, c2) && Le(c2, end) {
      found := found + [c2];
    }
  }

  /** Scanning one more month appends that month's kept candidates. */
  lemma ScanStep(first: int, d: Date, day1: int, day2: int, start: Date, end: Date)
    requires ValidDate(d) && d.day == 1 && day1 >= 1 && day2 >= 1 && first <= MonthIndex(d)
    ensures TwiceAMonthScan(first, MonthIndex(d) + 1, day1, day2, start, end)
      == TwiceAMonthScan(first, MonthIndex(d), day1, day2, start, end)
         + (Kept(Date(d.year, d.month, Min(day1, DaysInMonth(d.year, d.month))), start, end)
            + Kept(Date(d.year, d.month, Min(day2, DaysInMonth(d.year, d.month))), start, end))
  {
    IsMonthStart(d);
    var a := TwiceAMonthScan(first, MonthIndex(d), day1, day2, start, end);
    var k1 := Kept(DayOfMonth(MonthIndex(d), day1), start, end);
    var k2 := Kept(DayOfMonth(MonthIndex(d), day2), start, end);
  }

  /** A month's first day names its month and is compared with `end` by month. */
  lemma FirstOfMonth(d: Date, end: Date)
    requires ValidDate(d) && d.day == 1 && ValidDate(end)
    ensures Le(d, end) <==> MonthIndex(d) <= MonthIndex(end)
  {
    IsMonthStart(d);
    MonthStartNotAfter(MonthIndex(d), end);
  }

  /** The general branch (monitor.py:147-155): step from each date to the next. */
  method WalkForward(next: Date, step: Step, start: Date, end: Date) returns (dates: seq<Date>)
    requires ValidDate(next) && ValidDate(end) && step.count >= 1
    ensures dates == Walk(next, step, start, end)
  {
    dates := [];
    var d := next;
    while Le(d, end)
      invariant ValidDate(d)
      invariant WalkSplit(dates, d, next, step, start, end)
      decreases Ordinal(end) - Ordinal(d)
    {
      dates, d := WalkStep(dates, d, step, start, end);
    }
    WalkPastEnd(d, step, start, end);
    assert dates + [] == dates;
  }

  /** The dates collected so far followed by the walk from `d` make up the whole walk. */
  predicate WalkSplit(dates: seq<Date>, d: Date, next: Date, step: Step, start: Date, end: Date)
    requires ValidDate(d) && ValidDate(next) && ValidDate(end) && step.count >= 1
  {
    dates + Walk(d, step, start, end) == Walk(next, step, start, end)
  }

  /** One pass of the walk loop: keep `d` when in the window, then advance. */
  method WalkStep(dates0: seq<Date>, d: Date, step: Step, start: Date, end: Date)
    returns (dates: seq<Date>, following: Date)
    requires ValidDate(d) && ValidDate(end) && step.count >= 1 && Le(d, end)
    ensures ValidDate(following) && Ordinal(following) > Ordinal(d) && Ordinal(d) <= Ordinal(end)
    ensures dates + Walk(following, step, start, end) == dates0 + Walk(d, step, start, end)
  {
    WalkUnfold(d, step, start, end);
    following := Advance(d, step);
    ghost var rest := Walk(following, step, start, end);
    if Le(start, d) {
      dates := dates0 + [d];
      assert dates + rest == dates0 + ([d] + rest);
    } else {
      dates := dates0;
    }
  }

  /** One step of the walk: the current date if in the window, then the rest. */
  lemma WalkUnfold(d: Date, s: Step, start: Date, end: Date)
    requires ValidDate(d) && ValidDate(end) && s.count >= 1 && Le(d, end)
    ensures Ordinal(d) <= Ordinal(end) && Ordinal(d) < Ordinal(Advance(d, s))
    ensures Le(start, d) ==> Walk(d, s, start, end) == [d] + Walk(Advance(d, s), s, start, end)
    ensures !Le(start, d) ==> Walk(d, s, start, end) == Walk(Advance(d, s), s, start, end)
  {
    OrdinalOrder(d, end);
    assert [] + Walk(Advance(d, s), s, start, end) == Walk(Advance(d, s), s, start, end);
  }

  /** A walk that starts after the window's end yields nothing. */
  lemma WalkPastEnd(d: Date, s: Step, start: Date, end: Date)
    requires ValidDate(d) && ValidDate(end) && s.count >= 1 && !Le(d, end)
    ensures Walk(d, s, start, end) == []
  {
  }

  // ---------------------------------------------------------------------
  // Worked examples
  // ---------------------------------------------------------------------

  /**
   * A monthly walk steps from the previous, clamped, date: in a common year
   * Jan 31 is followed by Feb 28 and then Mar 28, not Mar 31.
   */
  lemma MonthlyClampCompounds(y: int)
    requires !IsLeapYear(y)
    ensures Walk(Date(y, 1, 31), Months(1), Date(y, 1, 1), Date(y, 3, 31))
      == [Date(y, 1, 31), Date(y, 2, 28), Date(y, 3, 28)]
  {
    var s, b, e := Months(1), Date(y, 1, 1), Date(y, 3, 31);
    var d1, d2, d3, d4 := Date(y, 1, 31), Date(y, 2, 28), Date(y, 3, 28), Date(y, 4, 28);
    assert Advance(d1, s) == d2;
    assert Advance(d2, s) == d3;
    assert Advance(d3, s) == d4;
    assert Walk(d4, s, b, e) == [];
    assert Walk(d3, s, b, e) == [d3];
    assert Walk(d2, s, b, e) == [d2, d3];
  }

  /** twiceAMonth keeps a paired day that falls before the anchor but inside the window. */
  lemma TwiceAMonthKeepsEarlierDay(y: int)
    ensures Date(y, 3, 5) in TwiceAMonthDates(Date(y, 3, 20), Date(y, 3, 1), Date(y, 3, 31))
    ensures Date(y, 3, 20) in TwiceAMonthDates(Date(y, 3, 20), Date(y, 3, 1), Date(y, 3, 31))
  {
    TwiceAMonthMembers(Date(y, 3, 20), Date(y, 3, 1), Date(y, 3, 31), Date(y, 3, 5));
    TwiceAMonthMembers(Date(y, 3, 20), Date(y, 3, 1), Date(y, 3, 31), Date(y, 3, 20));
  }

  /** The look-back is one month before the anchor's month, not before the window's. */
  lemma TwiceAMonthLookBackFromAnchor(y: int)
    ensures Date(y, 3, 5) !in TwiceAMonthDates(Date(y, 5, 20), Date(y, 3, 1), Date(y, 5, 31))
    ensures Date(y, 4, 5) in TwiceAMonthDates(Date(y, 5, 20), Date(y, 3, 1), Date(y, 5, 31))
  {
    TwiceAMonthMembers(Date(y, 5, 20), Date(y, 3, 1), Date(y, 5, 31), Date(y, 3, 5));
    TwiceAMonthMembers(Date(y, 5, 20), Date(y, 3, 1), Date(y, 5, 31), Date(y, 4, 5));
  }

  /** Anchor day 5 pairs with day 20 in every month. */
  lemma TwiceAMonthDayFive(next: Date, start: Date, end: Date, x: Date)
    requires ValidDate(next) && ValidDate(end) && next.day == 5
    requires x in TwiceAMonthDates(next, start, end)
    ensures x.day == 5 || x.day == 20
  {
    TwiceAMonthMembers(next, start, end, x);
  }
}
