/** The calendar arithmetic of JavaScript's `Date` constructor, with local
    time taken as UTC. Times are milliseconds since 1970-01-01T00:00:00. */
module Calendar {

  /** Days from 1970-01-01 to year `y`, month `m` (1..12), day `d` of the
      proleptic Gregorian calendar. */
  function DaysFromCivil(y: int, m: int, d: int): int
    requires 1 <= m <= 12
  {
    var y1 := if m <= 2 then y - 1 else y;
    var era := y1 / 400;
    var yoe := y1 - era * 400;
    var mp := if m > 2 then m - 3 else m + 9;
    var doy := (153 * mp + 2) / 5 + d - 1;
    var doe := yoe * 365 + yoe / 4 - yoe / 100 + doy;
    era * 146097 + doe - 719468
  }

  /** MakeDay, after the constructor's rule that a year from 0 to 99 means
      1900 + year; months outside 0..11 roll over into the year. */
  function DayNumber(year: int, month0: int, day: int): int
  {
    var yr := if 0 <= year <= 99 then 1900 + year else year;
    DaysFromCivil(yr + month0 / 12, month0 % 12 + 1, 1) + day - 1
  }

  /** MakeTime */
  function TimeOfDay(h: int, mi: int, s: int, ms: int): int
  {
    ((h * 60 + mi) * 60 + s) * 1000 + ms
  }

  /** `new Date(year, month0, day, h, mi, s, ms).getTime()`: fields outside
      their range roll over into the next larger one. */
  function DateValue(year: int, month0: int, day: int, h: int, mi: int, s: int, ms: int): int
  {
    DayNumber(year, month0, day) * 86400000 + TimeOfDay(h, mi, s, ms)
  }

  /** Equal fields give equal times; stated once so that callers need not
      unfold the calendar arithmetic to see it. */
  lemma DateValueCongruent(y1: int, m1: int, d1: int, h1: int, mi1: int, s1: int,
                           y2: int, m2: int, d2: int, h2: int, mi2: int, s2: int, ms: int)
    requires y1 == y2 && m1 == m2 && d1 == d2 && h1 == h2 && mi1 == mi2 && s1 == s2
    ensures DateValue(y1, m1, d1, h1, mi1, s1, ms) == DateValue(y2, m2, d2, h2, mi2, s2, ms)
  {
  }

  /** 1970-01-01 is day 0, the day time 0 falls on. */
  lemma EpochIsDayZero()
    ensures DayNumber(1970, 0, 1) == 0
  {
    assert 1969 / 400 == 4;
    assert 369 / 4 == 92 && 369 / 100 == 3;
    assert (153 * 10 + 2) / 5 == 306;
    assert DaysFromCivil(1970, 1, 1) == 0;
  }

  /** Day numbers are consecutive within a month: the next day is one more. */
  lemma NextDay(year: int, month0: int, day: int)
    ensures DayNumber(year, month0, day + 1) == DayNumber(year, month0, day) + 1
  {
  }

  /** A date's value splits into its day number and its time of day. */
  lemma DateValueSplits(year: int, month0: int, day: int, h: int, mi: int, s: int, ms: int)
    requires 0 <= TimeOfDay(h, mi, s, ms) < 86400000
    ensures DateValue(year, month0, day, h, mi, s, ms) / 86400000 == DayNumber(year, month0, day)
    ensures DateValue(year, month0, day, h, mi, s, ms) % 86400000 == TimeOfDay(h, mi, s, ms)
  {
  }

  /** Every time of one calendar day lies between that day's first and last
      millisecond, and times of a later day come after all of them. */
  lemma SameDayWindow(year: int, month0: int, day: int, h: int, mi: int, s: int, ms: int)
    requires 0 <= h < 24 && 0 <= mi < 60 && 0 <= s < 60 && 0 <= ms < 1000
    ensures DateValue(year, month0, day, 0, 0, 0, 0) <= DateValue(year, month0, day, h, mi, s, ms)
            <= DateValue(year, month0, day, 23, 59, 59, 999)
    ensures DateValue(year, month0, day, 23, 59, 59, 999) < DateValue(year, month0, day + 1, 0, 0, 0, 0)
  {
    NextDay(year, month0, day);
    assert 0 <= TimeOfDay(h, mi, s, ms) <= TimeOfDay(23, 59, 59, 999);
  }
}
