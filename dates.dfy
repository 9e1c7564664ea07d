/** The date handling of the Revenue page: `Number` on date-input text, the
    `YYYY-MM-DD` string of a date, and `parseDate` with its day-first and
    12-hour fallback. */
module JsDates {
  import opened Wrappers
  import opened Strings
  import opened Calendar

  // ---------------------------------------------------------------------
  // `Number` and the date-input string

  /** `Number(s)` on the text of a date input: surrounding white space is
      ignored, the empty string is 0, an optionally signed run of decimal
      digits is its value, and anything else is NaN (`None`). */
  function NumberOf(s: string): (n: Option<int>)
    ensures Trim(s) == "" ==> n == Some(0)
  {
    NumberText(Trim(s))
  }

  /** `Number` on text already trimmed. */
  function NumberText(t: string): Option<int>
  {
    if t == "" then Some(0)
    else if |t| >= 2 && t[0] == '+' && AllDigits(t[1..]) then Some(DigitsValue(t[1..]))
    else ParseIntText(t)
  }

  lemma NumberOfDigits(s: string)
    requires |s| >= 1 && AllDigits(s)
    ensures NumberOf(s) == Some(DigitsValue(s))
  {
    assert NumberText(s) == Some(DigitsValue(s)) by {
      assert IsDigit(s[0]);
    }
    assert Trim(s) == s by {
      assert !IsJsSpace(s[0]) && !IsJsSpace(s[|s| - 1]);
      assert TrimStart(s) == s;
      assert TrimEnd(s) == s;
    }
  }

  /** `getLocalDateString`: the calendar fields of a date as `YYYY-MM-DD`,
      month and day padded to two digits. */
  function LocalDateString(year: int, month0: int, day: int): (r: string)
    requires 0 <= month0 <= 11 && 1 <= day <= 31
    ensures |r| == |IntToString(year)| + 6
    ensures r[|r| - 3] == '-' && r[|r| - 6] == '-'
    ensures AllDigits(r[|r| - 5..|r| - 3]) && AllDigits(r[|r| - 2..])
  {
    IntToString(year) + "-" + Pad2(month0 + 1) + "-" + Pad2(day)
  }

  datatype Ymd = Ymd(year: int, month: int, day: int)

  /** `s.split('-').map(Number)` destructured into year, month and day; a
      missing part or NaN makes the date invalid. */
  function DateFields(s: string): Option<Ymd>
  {
    var parts := Split(s, '-');
    if |parts| < 3 then None
    else
      match (NumberOf(parts[0]), NumberOf(parts[1]), NumberOf(parts[2]))
      case (Some(y), Some(m), Some(d)) => Some(Ymd(y, m, d))
      case _ => None
  }

  /** The first millisecond of the day a date input names. */
  function DayStart(s: string): Option<int>
  {
    match DateFields(s)
    case None => None
    case Some(f) => Some(DateValue(f.year, f.month - 1, f.day, 0, 0, 0, 0))
  }

  /** The last millisecond of the day a date input names. */
  function DayEnd(s: string): Option<int>
  {
    match DateFields(s)
    case None => None
    case Some(f) => Some(DateValue(f.year, f.month - 1, f.day, 23, 59, 59, 999))
  }

  /** Reading back a date string gives the year, the 1-based month and the
      day it was made from. */
  lemma DateFieldsRoundTrip(year: nat, month0: int, day: int)
    requires 0 <= month0 <= 11 && 1 <= day <= 31
    ensures DateFields(LocalDateString(year, month0, day)) == Some(Ymd(year, month0 + 1, day))
  {
    var parts := [NatToString(year), Pad2(month0 + 1), Pad2(day)];
    assert Join(parts[2..], "-") == parts[2];
    assert Join(parts[1..], "-") == parts[1] + "-" + parts[2];
    assert LocalDateString(year, month0, day) == Join(parts, "-");
    forall i | 0 <= i < 3 ensures '-' !in parts[i] {
      assert AllDigits(parts[i]);
    }
    SplitJoin(parts, '-');
    NumberOfDigits(parts[0]);
    NumberOfDigits(parts[1]);
    NumberOfDigits(parts[2]);
    NatRoundTrip(year);
    Pad2Value(month0 + 1);
    Pad2Value(day);
  }

  /** A day picked as both ends of the range covers every time of that day,
      for the years a four-digit field can hold. */
  lemma DayRangeCoversDay(year: nat, month0: int, day: int, h: int, mi: int, s: int, ms: int)
    requires year <= 9999 && 0 <= month0 <= 11 && 1 <= day <= 31
    requires 0 <= h < 24 && 0 <= mi < 60 && 0 <= s < 60 && 0 <= ms < 1000
    ensures DayStart(LocalDateString(year, month0, day)).Some?
    ensures DayEnd(LocalDateString(year, month0, day)).Some?
    ensures DayStart(LocalDateString(year, month0, day)).value <= DateValue(year, month0, day, h, mi, s, ms)
            <= DayEnd(LocalDateString(year, month0, day)).value
  {
    LocalDayBounds(year, month0, day);
    SameDayWindow(year, month0, day, h, mi, s, ms);
  }

  /** The range ends a date string stands for are the first and last
      millisecond of the day it was made from. */
  lemma LocalDayBounds(year: nat, month0: int, day: int)
    requires 0 <= month0 <= 11 && 1 <= day <= 31
    ensures DayStart(LocalDateString(year, month0, day)) == Some(DateValue(year, month0, day, 0, 0, 0, 0))
    ensures DayEnd(LocalDateString(year, month0, day)) == Some(DateValue(year, month0, day, 23, 59, 59, 999))
  {
    var f := Ymd(year, month0 + 1, day);
    DateFieldsRoundTrip(year, month0, day);
    DayEndsOfFields(LocalDateString(year, month0, day), f);
    DateValueCongruent(f.year, f.month - 1, f.day, 0, 0, 0, year, month0, day, 0, 0, 0, 0);
    DateValueCongruent(f.year, f.month - 1, f.day, 23, 59, 59, year, month0, day, 23, 59, 59, 999);
  }

  /** The range ends of a date input whose fields are read. */
  lemma DayEndsOfFields(text: string, f: Ymd)
    requires DateFields(text) == Some(f)
    ensures DayStart(text) == Some(DateValue(f.year, f.month - 1, f.day, 0, 0, 0, 0))
    ensures DayEnd(text) == Some(DateValue(f.year, f.month - 1, f.day, 23, 59, 59, 999))
  {
  }

  // ---------------------------------------------------------------------
  // The day-first fallback: ^(\d{1,2})[/-](\d{1,2})[/-](\d{4})

  predicate IsSep(c: char) { c == '/' || c == '-' }

  /** Length of a one- or two-digit field followed by a separator at the
      start of `s`. */
  function Lead(s: string): (n: Option<nat>)
    ensures n.Some? ==> 1 <= n.value <= 2 && n.value < |s| && AllDigits(s[..n.value]) && IsSep(s[n.value])
  {
    if |s| >= 3 && IsDigit(s[0]) && IsDigit(s[1]) && IsSep(s[2]) then Some(2)
    else if |s| >= 2 && IsDigit(s[0]) && IsSep(s[1]) then Some(1)
    else None
  }

  datatype Dmy = Dmy(day: nat, month: nat, year: nat)

  /** The day, month and year at the start of `s`, read day first. */
  function DayFirst(s: string): Option<Dmy>
  {
    match Lead(s)
    case None => None
    case Some(a) => MonthFirst(DigitsValue(s[..a]), s[a + 1..])
  }

  /** The rest of the match once the day is read. */
  function MonthFirst(day: nat, s: string): Option<Dmy>
  {
    match Lead(s)
    case None => None
    case Some(b) => YearFirst(day, DigitsValue(s[..b]), s[b + 1..])
  }

  /** The four-digit year closing the match. */
  function YearFirst(day: nat, month: nat, s: string): Option<Dmy>
  {
    if |s| >= 4 && AllDigits(s[..4]) then Some(Dmy(day, month, DigitsValue(s[..4]))) else None
  }

  // ---------------------------------------------------------------------
  // The time fallback: (\d{1,2}):(\d{2})(?::(\d{2}))?\s*(AM|PM)?  (any case)

  datatype Period = AM | PM

  datatype TimeMatch = TimeMatch(hours: nat, minutes: nat, seconds: Option<nat>, period: Option<Period>)

  /** The AM/PM marker at the start of `s`, in any case. */
  function PeriodAt(s: string): Option<Period>
  {
    if |s| >= 2 && LowerChar(s[0]) == 'a' && LowerChar(s[1]) == 'm' then Some(AM)
    else if |s| >= 2 && LowerChar(s[0]) == 'p' && LowerChar(s[1]) == 'm' then Some(PM)
    else None
  }

  /** Length of the one- or two-digit hour before a ':' at the start of
      `s`, or 0 when there is none. */
  function HourLength(s: string): (n: nat)
    ensures n <= 2
    ensures n > 0 ==> n < |s| && AllDigits(s[..n]) && s[n] == ':'
  {
    if |s| >= 3 && IsDigit(s[0]) && IsDigit(s[1]) && s[2] == ':' then 2
    else if |s| >= 2 && IsDigit(s[0]) && s[1] == ':' then 1
    else 0
  }

  predicate TwoDigitsAt(s: string, i: nat)
  {
    i + 2 <= |s| && IsDigit(s[i]) && IsDigit(s[i + 1])
  }

  /** The time pattern matched at the start of `s`. */
  function TimeAt(s: string): Option<TimeMatch>
  {
    var h := HourLength(s);
    if h == 0 then None else MinutesAt(DigitsValue(s[..h]), s[h + 1..])
  }

  /** The rest of the match once the hour and its ':' are read. */
  function MinutesAt(hours: nat, s: string): Option<TimeMatch>
  {
    if !TwoDigitsAt(s, 0) then None else Some(SecondsAt(hours, DigitsValue(s[..2]), s[2..]))
  }

  /** The optional seconds and AM/PM marker closing the match. */
  function SecondsAt(hours: nat, minutes: nat, s: string): TimeMatch
  {
    if |s| >= 1 && s[0] == ':' && TwoDigitsAt(s, 1) then
      TimeMatch(hours, minutes, Some(DigitsValue(s[1..3])), PeriodAt(TrimStart(s[3..])))
    else
      TimeMatch(hours, minutes, None, PeriodAt(TrimStart(s)))
  }

  /** The leftmost match of the time pattern in `s`. */
  function FindTime(s: string): Option<TimeMatch>
  {
    if TimeAt(s).Some? then TimeAt(s)
    else if s == [] then None
    else FindTime(s[1..])
  }

  /** No match can start in a prefix without ':' that ends in a non-digit. */
  lemma {:induction false} FindTimeSkips(a: string, b: string)
    requires ':' !in a
    requires a == [] || !IsDigit(a[|a| - 1]) || (b != [] && !IsDigit(b[0]) && b[0] != ':')
    ensures FindTime(a + b) == FindTime(b)
  {
    if a == [] {
      assert a + b == b;
    } else {
      var s := a + b;
      assert s[0] == a[0] && a[0] in a;
      if |a| == 1 {
        if |s| >= 2 {
          assert s[1] == b[0];
        }
      } else {
        assert s[1] == a[1] && a[1] in a;
        if |a| == 2 {
          if |s| >= 3 {
            assert s[2] == b[0];
          }
        } else {
          assert s[2] == a[2] && a[2] in a;
        }
      }
      assert HourLength(s) == 0;
      assert s[1..] == a[1..] + b;
      FindTimeSkips(a[1..], b);
    }
  }

  /** The 12-hour correction: PM before 12 adds 12, 12 AM is hour 0, and
      every other hour is kept. */
  function To24(h: int, period: Option<Period>): (r: int)
    ensures period == Some(PM) && h < 12 ==> r == h + 12
    ensures period == Some(AM) && h == 12 ==> r == 0
    ensures !(period == Some(PM) && h < 12) && !(period == Some(AM) && h == 12) ==> r == h
  {
    if period == Some(PM) && h < 12 then h + 12
    else if period == Some(AM) && h == 12 then 0
    else h
  }

  /** On a 12-hour clock reading (1 to 12, AM or PM) the correction is the
      usual conversion: a bijection onto the hours 0 to 23. */
  lemma TwelveHourClock(h: int, p: Period)
    requires 1 <= h <= 12
    ensures 0 <= To24(h, Some(p)) <= 23
    ensures To24(h, Some(p)) < 12 <==> p == AM
    ensures To24(h, Some(p)) % 12 == h % 12
  {
  }

  lemma TwelveHourOnto(hour: int)
    requires 0 <= hour <= 23
    ensures var h := if hour % 12 == 0 then 12 else hour % 12;
            To24(h, Some(if hour < 12 then AM else PM)) == hour
  {
  }

  /** What `parseDate` returns: 0 for an empty string, the native parse
      when it succeeds, else the day-first date with the time found in the
      string (00:00:00 when there is none), else 0. */
  function DateOf(dateStr: string, native: Option<int>): (t: int)
    ensures dateStr == "" ==> t == 0
    ensures dateStr != "" && native.Some? ==> t == native.value
    ensures dateStr != "" && native.None? && DayFirst(dateStr).None? ==> t == 0
  {
    if dateStr == "" then 0
    else if native.Some? then native.value
    else match DayFirst(dateStr)
      case None => 0
      case Some(dmy) =>
        var tm := FindTime(dateStr);
        DateValue(dmy.year, dmy.month - 1, dmy.day, HourOf(tm), MinuteOf(tm), SecondOf(tm), 0)
  }

  /** The hour a time match gives, after the 12-hour correction; 0 without one. */
  function HourOf(tm: Option<TimeMatch>): int
  {
    if tm.Some? then To24(tm.value.hours, tm.value.period) else 0
  }

  function MinuteOf(tm: Option<TimeMatch>): int
  {
    if tm.Some? then tm.value.minutes else 0
  }

  function SecondOf(tm: Option<TimeMatch>): int
  {
    if tm.Some? then tm.value.seconds.GetOr(0) else 0
  }

  /** `parseDate`, assigning the parts step by step as the page does. */
  method ParseDate(dateStr: string, native: Option<int>) returns (t: int)
    ensures t == DateOf(dateStr, native)
  {
    if dateStr == "" {
      return 0;
    }
    if native.Some? {
      return native.value;
    }
    var dmyMatch := DayFirst(dateStr);
    if dmyMatch.Some? {
      var day := dmyMatch.value.day;
      var month := dmyMatch.value.month - 1;
      var year := dmyMatch.value.year;
      var hours, minutes, seconds := 0, 0, 0;
      var timeMatch := FindTime(dateStr);
      if timeMatch.Some? {
        hours := timeMatch.value.hours;
        minutes := timeMatch.value.minutes;
        seconds := timeMatch.value.seconds.GetOr(0);
        var period := timeMatch.value.period;
        if period == Some(PM) && hours < 12 {
          hours := hours + 12;
        }
        if period == Some(AM) && hours == 12 {
          hours := 0;
        }
      }
      assert hours == HourOf(timeMatch) && minutes == MinuteOf(timeMatch) && seconds == SecondOf(timeMatch);
      return DateValue(year, month, day, hours, minutes, seconds, 0);
    }
    return 0;
  }

  // ---------------------------------------------------------------------
  // Round trip of a day-first, 12-hour date

  function PeriodText(p: Period): string
  {
    match p
    case AM => "am"
    case PM => "pm"
  }

  /** A date written day first with a 12-hour time, e.g. `15/10/2024, 3:45:07 pm`. */
  function DayFirstText(day: nat, month: nat, year: nat, h: nat, mi: nat, s: nat, p: Period): string
  {
    NatToString(day) + ("/" + (NatToString(month) + ("/" + (NatToString(year) + (", " + TimeText(h, mi, s, p))))))
  }

  /** The time part, e.g. `3:45:07 pm`. */
  function TimeText(h: nat, mi: nat, s: nat, p: Period): string
  {
    NatToString(h) + (":" + (Pad2(mi) + (":" + (Pad2(s) + (" " + PeriodText(p))))))
  }

  lemma {:induction false} NatToStringShort(n: nat)
    ensures n < 10 ==> |NatToString(n)| == 1
    ensures 10 <= n < 100 ==> |NatToString(n)| == 2
    ensures 100 <= n < 1000 ==> |NatToString(n)| == 3
    ensures 1000 <= n < 10000 ==> |NatToString(n)| == 4
  {
    if n >= 10 {
      NatToStringShort(n / 10);
    }
  }

  lemma LeadOf(d: string, rest: string)
    requires 1 <= |d| <= 2 && AllDigits(d)
    ensures Lead(d + ("/" + rest)) == Some(|d|)
    ensures (d + ("/" + rest))[..|d|] == d && (d + ("/" + rest))[|d| + 1..] == rest
  {
    var s := d + ("/" + rest);
    assert s[|d|] == '/';
    if |d| == 2 {
      assert s[0] == d[0] && s[1] == d[1];
    } else {
      assert s[0] == d[0];
    }
  }

  lemma DayFirstOfParts(dd: string, mm: string, yyyy: string, rest: string)
    requires 1 <= |dd| <= 2 && 1 <= |mm| <= 2 && |yyyy| == 4
    requires AllDigits(dd) && AllDigits(mm) && AllDigits(yyyy)
    ensures DayFirst(dd + ("/" + (mm + ("/" + (yyyy + rest)))))
            == Some(Dmy(DigitsValue(dd), DigitsValue(mm), DigitsValue(yyyy)))
  {
    var r2 := yyyy + rest;
    var r1 := mm + ("/" + r2);
    var s := dd + ("/" + r1);
    LeadOf(dd, r1);
    LeadOf(mm, r2);
    assert r2[..4] == yyyy;
    assert YearFirst(DigitsValue(dd), DigitsValue(mm), r2) == Some(Dmy(DigitsValue(dd), DigitsValue(mm), DigitsValue(yyyy)));
    assert MonthFirst(DigitsValue(dd), r1) == YearFirst(DigitsValue(dd), DigitsValue(mm), r2);
  }

  lemma DayFirstOfText(day: nat, month: nat, year: nat, rest: string)
    requires 1 <= day <= 99 && 1 <= month <= 99 && 1000 <= year <= 9999
    ensures DayFirst(NatToString(day) + ("/" + (NatToString(month) + ("/" + (NatToString(year) + rest)))))
            == Some(Dmy(day, month, year))
  {
    NatToStringShort(day);
    NatToStringShort(month);
    NatToStringShort(year);
    DayFirstOfParts(NatToString(day), NatToString(month), NatToString(year), rest);
    NatRoundTrip(day);
    NatRoundTrip(month);
    NatRoundTrip(year);
  }

  lemma PeriodOfText(p: Period)
    ensures PeriodAt(TrimStart(" " + PeriodText(p))) == Some(p)
  {
    var w := PeriodText(p);
    assert |w| == 2 && !IsJsSpace(w[0]);
    assert TrimStart(w) == w;
    var t := " " + w;
    assert t[1..] == w && IsJsSpace(t[0]);
    assert TrimStart(t) == w;
  }

  lemma HourLengthOf(hh: string, rest: string)
    requires 1 <= |hh| <= 2 && AllDigits(hh)
    ensures HourLength(hh + (":" + rest)) == |hh|
  {
    var s := hh + (":" + rest);
    assert s[|hh|] == ':' && IsDigit(s[0]);
    if |hh| == 2 {
      assert IsDigit(s[1]);
    } else {
      assert !IsDigit(s[1]);
    }
  }

  /** The time pattern at the start of `hh:mm:ss` followed by anything. */
  lemma TimeAtParts(hh: string, mm: string, ss: string, tail: string)
    requires 1 <= |hh| <= 2 && |mm| == 2 && |ss| == 2
    requires AllDigits(hh) && AllDigits(mm) && AllDigits(ss)
    ensures TimeAt(hh + (":" + (mm + (":" + (ss + tail)))))
            == Some(TimeMatch(DigitsValue(hh), DigitsValue(mm), Some(DigitsValue(ss)), PeriodAt(TrimStart(tail))))
  {
    var r1 := mm + (":" + (ss + tail));
    var t := hh + (":" + r1);
    HourLengthOf(hh, r1);
    assert t[..|hh|] == hh && t[|hh| + 1..] == r1;
    MinutesAtParts(DigitsValue(hh), mm, ss, tail);
  }

  lemma MinutesAtParts(hours: nat, mm: string, ss: string, tail: string)
    requires |mm| == 2 && |ss| == 2 && AllDigits(mm) && AllDigits(ss)
    ensures MinutesAt(hours, mm + (":" + (ss + tail)))
            == Some(TimeMatch(hours, DigitsValue(mm), Some(DigitsValue(ss)), PeriodAt(TrimStart(tail))))
  {
    var r2 := ":" + (ss + tail);
    var r1 := mm + r2;
    assert r1[..2] == mm && r1[2..] == r2 && TwoDigitsAt(r1, 0);
    SecondsAtParts(hours, DigitsValue(mm), ss, tail);
  }

  lemma SecondsAtParts(hours: nat, minutes: nat, ss: string, tail: string)
    requires |ss| == 2 && AllDigits(ss)
    ensures SecondsAt(hours, minutes, ":" + (ss + tail))
            == TimeMatch(hours, minutes, Some(DigitsValue(ss)), PeriodAt(TrimStart(tail)))
  {
    var r2 := ":" + (ss + tail);
    assert r2[1..3] == ss && r2[3..] == tail && TwoDigitsAt(r2, 1);
  }

  lemma TimeAtOfText(h: nat, mi: nat, s: nat, p: Period)
    requires 1 <= h <= 12 && mi < 60 && s < 60
    ensures TimeAt(TimeText(h, mi, s, p)) == Some(TimeMatch(h, mi, Some(s), Some(p)))
  {
    NatToStringShort(h);
    TimeAtParts(NatToString(h), Pad2(mi), Pad2(s), " " + PeriodText(p));
    PeriodOfText(p);
    NatRoundTrip(h);
    Pad2Value(mi);
    Pad2Value(s);
  }

  /** A transaction date written day first with a 12-hour time, which the
      native parse rejects, is read back as that calendar date and time. */
  lemma DayFirstRoundTrip(day: nat, month: nat, year: nat, h: nat, mi: nat, s: nat, p: Period)
    requires 1 <= day <= 31 && 1 <= month <= 12 && 1000 <= year <= 9999
    requires 1 <= h <= 12 && mi < 60 && s < 60
    ensures DateOf(DayFirstText(day, month, year, h, mi, s, p), None)
            == DateValue(year, month - 1, day, To24(h, Some(p)), mi, s, 0)
  {
    var text := DayFirstText(day, month, year, h, mi, s, p);
    DayFirstTextMatches(day, month, year, h, mi, s, p);
    DateOfMatches(text, day, month, year, h, mi, s, p);
  }

  /** Both patterns find the fields a day-first text was written from. */
  lemma DayFirstTextMatches(day: nat, month: nat, year: nat, h: nat, mi: nat, s: nat, p: Period)
    requires 1 <= day <= 31 && 1 <= month <= 12 && 1000 <= year <= 9999
    requires 1 <= h <= 12 && mi < 60 && s < 60
    ensures DayFirst(DayFirstText(day, month, year, h, mi, s, p)) == Some(Dmy(day, month, year))
    ensures FindTime(DayFirstText(day, month, year, h, mi, s, p)) == Some(TimeMatch(h, mi, Some(s), Some(p)))
  {
    var time := TimeText(h, mi, s, p);
    DayFirstOfText(day, month, year, ", " + time);
    TimeOfDayFirstText(day, month, year, time);
    TimeAtOfText(h, mi, s, p);
  }

  /** Once both patterns match, `parseDate` builds the date from their
      fields. */
  lemma DateOfMatches(text: string, day: nat, month: nat, year: nat, h: nat, mi: nat, s: nat, p: Period)
    requires text != "" && DayFirst(text) == Some(Dmy(day, month, year))
    requires FindTime(text) == Some(TimeMatch(h, mi, Some(s), Some(p)))
    ensures DateOf(text, None) == DateValue(year, month - 1, day, To24(h, Some(p)), mi, s, 0)
  {
  }

  /** The leftmost time match in a day-first text is the one after the date. */
  lemma TimeOfDayFirstText(day: nat, month: nat, year: nat, time: string)
    requires time != [] && IsDigit(time[0])
    ensures FindTime(NatToString(day) + ("/" + (NatToString(month) + ("/" + (NatToString(year) + (", " + time))))))
            == FindTime(time)
  {
    var D, M, Y := NatToString(day), NatToString(month), NatToString(year);
    assert ':' !in D && ':' !in M && ':' !in Y by {
      assert AllDigits(D) && AllDigits(M) && AllDigits(Y);
    }
    FindTimeSkips(", ", time);
    FindTimeSkips(Y, ", " + time);
    FindTimeSkips("/", Y + (", " + time));
    FindTimeSkips(M, "/" + (Y + (", " + time)));
    FindTimeSkips("/", M + ("/" + (Y + (", " + time))));
    FindTimeSkips(D, "/" + (M + ("/" + (Y + (", " + time)))));
  }
}
