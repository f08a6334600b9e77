/**
 * The daily branch of `_next_occurrence`: the next wall-clock instant at
 * a given hour and minute strictly after a given moment. Date-times are
 * naive (no time zone), to the microsecond, as Python's `datetime`.
 */
module Timing {
  import opened Wrappers
  import opened Calendar

  datatype DateTime = DateTime(date: Date, hour: int, minute: int, second: int, microsecond: int)

  const MicrosPerDay: int := 86_400_000_000

  predicate ValidDateTime(t: DateTime)
  {
    ValidDate(t.date) && 0 <= t.hour < 24 && 0 <= t.minute < 60
    && 0 <= t.second < 60 && 0 <= t.microsecond < 1_000_000
  }

  /** Microseconds since midnight. */
  function TimeOfDay(t: DateTime): int
  {
    ((t.hour * 60 + t.minute) * 60 + t.second) * 1_000_000 + t.microsecond
  }

  /** A point on the time line: the day ordinal scaled to microseconds, plus the time of day. */
  function Instant(t: DateTime): int
    requires ValidDate(t.date)
  {
    Ordinal(t.date) * MicrosPerDay + TimeOfDay(t)
  }

  lemma TimeOfDayBounds(t: DateTime)
    requires ValidDateTime(t)
    ensures 0 <= TimeOfDay(t) < MicrosPerDay
  {
  }

  /**
   * `_next_occurrence(("daily", hour, minute), after)`: today at
   * `hour:minute:00`, or tomorrow at that time when that is not strictly
   * later than `after`. `datetime.replace` rejects an hour or minute out
   * of range, which the result reports as `None`.
   */
  function NextDailyOccurrence(after: DateTime, hour: int, minute: int): (r: Option<DateTime>)
    requires ValidDateTime(after)
    ensures r.Some? <==> 0 <= hour < 24 && 0 <= minute < 60
    ensures r.Some? ==> ValidDateTime(r.value) && r.value.hour == hour && r.value.minute == minute
    ensures r.Some? ==> r.value.second == 0 && r.value.microsecond == 0
    ensures r.Some? ==> Instant(after) < Instant(r.value) <= Instant(after) + MicrosPerDay
  {
    if !(0 <= hour < 24 && 0 <= minute < 60) then None
    else
      var t := after.(hour := hour, minute := minute, second := 0, microsecond := 0);
      TimeOfDayBounds(after);
      TimeOfDayBounds(t);
      if Instant(t) <= Instant(after) then
        Some(t.(date := NextDay(t.date)))
      else
        Some(t)
  }

  /**
   * The next occurrence is the only instant with that wall-clock time in
   * the day-long span `(after, after + 1 day]`.
   */
  lemma NextDailyOccurrenceUnique(after: DateTime, hour: int, minute: int, x: DateTime)
    requires ValidDateTime(after) && ValidDateTime(x)
    requires x.hour == hour && x.minute == minute && x.second == 0 && x.microsecond == 0
    requires Instant(after) < Instant(x) <= Instant(after) + MicrosPerDay
    ensures NextDailyOccurrence(after, hour, minute) == Some(x)
  {
    var r := NextDailyOccurrence(after, hour, minute).value;
    assert TimeOfDay(r) == TimeOfDay(x);
    var k := Ordinal(x.date) - Ordinal(r.date);
    assert Instant(x) - Instant(r) == k * MicrosPerDay;
    assert k == 0;
    OrdinalOrder(x.date, r.date);
  }
}
