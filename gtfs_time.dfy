/** Times and dates as GTFS feeds write them, read the way the importers read
    them: Django's `parse_duration` on "H:MM:SS" stop and start times,
    `datetime.strptime(…, "%Y%m%d")` on service dates, and the start instant
    of a trip, in naive seconds with a zone tag. */
module GtfsTime {
  import opened Wrappers
  import opened Text

  const SecondsPerDay := 86400
  const Noon := 12 * 3600

  /** The first whole number of seconds beyond `timedelta.max`
      (999999999 days, 23:59:59.999999): a longer `timedelta` raises
      OverflowError. */
  const DurationLimit := 1000000000 * SecondsPerDay

  /** `date(9999, 12, 31).toordinal()`, the last day `datetime` holds. */
  const MaxOrdinal := 3652059

  /** The naive seconds of 10000-01-01 00:00, the first instant beyond
      `datetime.max`: arithmetic reaching it raises OverflowError. */
  const DateTimeLimit := MaxOrdinal * SecondsPerDay

  /** A naive date-time in seconds since 0001-01-01 00:00, with the zone that
      `.replace(tzinfo=…)` attaches (no conversion happens). */
  datatype DateTime = DateTime(naive: int, zone: string)

  datatype Date = Date(year: int, month: int, day: int)

  predicate IsLeap(y: int) { y % 4 == 0 && (y % 100 != 0 || y % 400 == 0) }

  function DaysInMonth(y: int, m: int): int
    requires 1 <= m <= 12
  {
    if m == 2 then (if IsLeap(y) then 29 else 28)
    else if m == 4 || m == 6 || m == 9 || m == 11 then 30
    else 31
  }

  /** The dates `strptime` accepts: years 1 to 9999 and real calendar days. */
  predicate ValidDate(d: Date) {
    1 <= d.year <= 9999 && 1 <= d.month <= 12 && 1 <= d.day <= DaysInMonth(d.year, d.month)
  }

  /** `int` of a string of exactly `n` digits, as one `%Y`/`%m`/`%d` field. */
  function Field(s: string, lo: nat, hi: nat): nat
    requires lo <= hi <= |s| && AllDigits(s)
  {
    assert AllDigits(s[lo..hi]) by {
      forall i | 0 <= i < hi - lo ensures IsDigit(s[lo..hi][i]) { assert s[lo..hi][i] == s[lo + i]; }
    }
    DecimalValue(s[lo..hi])
  }

  /** `datetime.strptime(s, "%Y%m%d")` on the eight-digit form, None where it
      raises. A parsed date is exactly what the text spells: writing it back
      zero-padded gives the text again. */
  function ParseDate(s: string): (r: Option<Date>)
    ensures r.Some? ==> ValidDate(r.value) && |s| == 8 && AllDigits(s)
    ensures r.Some? ==> FormatDate(r.value) == s
  {
    if |s| == 8 && AllDigits(s) then
      var d := Date(Field(s, 0, 4), Field(s, 4, 6), Field(s, 6, 8));
      if ValidDate(d) then
        FieldsFormat(s);
        Some(d)
      else None
    else None
  }

  /** A date written as GTFS writes `start_date`: "YYYYMMDD". */
  function FormatDate(d: Date): (s: string)
    requires ValidDate(d)
    ensures |s| == 8 && AllDigits(s)
  {
    PadDigits(d.year, 4) + PadDigits(d.month, 2) + PadDigits(d.day, 2)
  }

  /** The three fields of eight digits, written back zero-padded, give the
      digits again. */
  lemma FieldsFormat(s: string)
    requires |s| == 8 && AllDigits(s)
    ensures PadDigits(Field(s, 0, 4), 4) + PadDigits(Field(s, 4, 6), 2) + PadDigits(Field(s, 6, 8), 2) == s
  {
    PadDecimal(s[0..4]);
    PadDecimal(s[4..6]);
    PadDecimal(s[6..8]);
    assert s == s[0..4] + s[4..6] + s[6..8];
  }

  /** Every valid date, written "YYYYMMDD", parses back to itself. */
  lemma ParseFormatDate(d: Date)
    requires ValidDate(d)
    ensures ParseDate(FormatDate(d)) == Some(d)
  {
    var y, m, dd := PadDigits(d.year, 4), PadDigits(d.month, 2), PadDigits(d.day, 2);
    var s := FormatDate(d);
    assert s[0..4] == y && s[4..6] == m && s[6..8] == dd;
    assert Pow10(4) == 10000 && Pow10(2) == 100;
    PadDigitsValue(d.year, 4);
    PadDigitsValue(d.month, 2);
    PadDigitsValue(d.day, 2);
  }

  /** `parse_duration(s)`, in seconds, on the forms GTFS times take: "S",
      "M:S" or "H:M:S" with each field a run of digits, and the empty text,
      which Django's PostgreSQL-interval pattern reads as zero. Like every
      `$`, Django's patterns also match before one final newline. None
      where Django returns None, and where the `timedelta` it builds would
      pass `timedelta.max` and raise OverflowError. */
  function ParseDuration(s: string): (r: Option<nat>)
    ensures s == "" ==> r == Some(0)
    ensures r.Some? ==> r.value < DurationLimit
    ensures r.Some? ==> forall i :: 0 <= i < |s| ==> IsDigit(s[i]) || s[i] == ':' || (i == |s| - 1 && s[i] == '\n')
  {
    ParseClock(DropFinalNewline(s))
  }

  /** The text without one final newline. */
  function DropFinalNewline(s: string): (t: string)
    ensures t == s || (s == t + "\n")
    ensures t == [] || t[|t| - 1] != '\n' || s == t + "\n"
  {
    if |s| > 0 && s[|s| - 1] == '\n' then s[..|s| - 1] else s
  }

  /** The fields of a duration without the final newline. */
  function ParseClock(t: string): (r: Option<nat>)
    ensures t == "" ==> r == Some(0)
    ensures r.Some? ==> r.value < DurationLimit
    ensures r.Some? ==> forall i :: 0 <= i < |t| ==> IsDigit(t[i]) || t[i] == ':'
  {
    var parts := Split(t, ':');
    if t == "" then Some(0)
    else if |parts| <= 3 && DigitFields(parts) then
      JoinSplit(t, ':');
      JoinDigits(parts, ':');
      var secs :=
        if |parts| == 1 then DecimalValue(parts[0])
        else if |parts| == 2 then Seconds(0, DecimalValue(parts[0]), DecimalValue(parts[1]))
        else Seconds(DecimalValue(parts[0]), DecimalValue(parts[1]), DecimalValue(parts[2]));
      if secs < DurationLimit then Some(secs) else None
    else None
  }

  /** Every field is a non-empty run of digits. */
  predicate DigitFields(parts: seq<string>) {
    forall i :: 0 <= i < |parts| ==> |parts[i]| > 0 && AllDigits(parts[i])
  }

  /** A final newline changes nothing. */
  lemma ParseNewline(s: string)
    requires s == [] || s[|s| - 1] != '\n'
    ensures ParseDuration(s + "\n") == ParseDuration(s)
  {
    assert DropFinalNewline(s + "\n") == s;
    assert DropFinalNewline(s) == s;
  }

  /** The seconds of hours, minutes and seconds. */
  function Seconds(h: nat, m: nat, s: nat): nat { h * 3600 + m * 60 + s }

  function Pow10(w: nat): nat { if w == 0 then 1 else 10 * Pow10(w - 1) }

  /** `n` written with exactly `w` digits, zero-padded (as GTFS writes times
      and dates). */
  function PadDigits(n: nat, w: nat): (r: string)
    ensures |r| == w && AllDigits(r)
  {
    if w == 0 then "" else PadDigits(n / 10, w - 1) + [DigitChar(n % 10)]
  }

  lemma {:induction false} PadDigitsValue(n: nat, w: nat)
    requires n < Pow10(w)
    ensures DecimalValue(PadDigits(n, w)) == n
  {
    if w > 0 {
      var r := PadDigits(n, w);
      assert r[..|r| - 1] == PadDigits(n / 10, w - 1);
      PadDigitsValue(n / 10, w - 1);
    }
  }

  /** A run of digits is its own value written with as many digits. */
  lemma {:induction false} PadDecimal(x: string)
    requires AllDigits(x)
    ensures PadDigits(DecimalValue(x), |x|) == x
  {
    if |x| > 0 {
      var init := x[..|x| - 1];
      var c := x[|x| - 1];
      assert AllDigits(init);
      PadDecimal(init);
      var n := DecimalValue(x);
      assert n / 10 == DecimalValue(init) && n % 10 == c as int - '0' as int;
      assert DigitChar(n % 10) == c;
      assert x == init + [c];
    }
  }

  /** A GTFS "HH:MM:SS" time for `t` seconds past the start of the service
      day (hours may pass 24). */
  function FormatTime(t: nat): string
    requires t < 100 * 3600
  {
    PadDigits(t / 3600, 2) + ":" + PadDigits(t / 60 % 60, 2) + ":" + PadDigits(t % 60, 2)
  }

  /** Every GTFS "HH:MM:SS" time parses back to its number of seconds. */
  lemma ParseFormatTime(t: nat)
    requires t < 100 * 3600
    ensures ParseDuration(FormatTime(t)) == Some(t)
  {
    SplitSeconds(t);
    ParseClockDigits(FormatTime(t), t / 3600, t / 60 % 60, t % 60);
  }

  /** Hours, minutes and seconds of `t` put back together give `t`. */
  lemma SplitSeconds(t: nat)
    requires t < 100 * 3600
    ensures t / 3600 < 100 && t / 60 % 60 < 60 && t % 60 < 60
    ensures t == Seconds(t / 3600, t / 60 % 60, t % 60)
  {
  }

  /** Midnight, "00:00:00", parses to 0 seconds. */
  lemma MidnightParses(s: string)
    requires s == "00:00:00"
    ensures ParseDuration(s) == Some(0)
  {
    var z := PadDigits(0, 2);
    assert z == "00";
    assert s == z + ":" + z + ":" + z;
    TwoDigitsValue(0);
    ParseFields(z, z, z);
  }

  /** A two-digit field reads back as its number. */
  lemma TwoDigitsValue(n: nat)
    requires n < 100
    ensures DecimalValue(PadDigits(n, 2)) == n
  {
    assert Pow10(2) == 100;
    PadDigitsValue(n, 2);
  }

  /** Three non-empty runs of digits joined by ":" parse as hours, minutes
      and seconds, unless that many seconds overflow `timedelta`. */
  lemma ParseFields(h: string, m: string, s: string)
    requires |h| > 0 && |m| > 0 && |s| > 0 && AllDigits(h) && AllDigits(m) && AllDigits(s)
    ensures Seconds(DecimalValue(h), DecimalValue(m), DecimalValue(s)) < DurationLimit ==>
              ParseDuration(h + ":" + m + ":" + s) == Some(Seconds(DecimalValue(h), DecimalValue(m), DecimalValue(s)))
    ensures Seconds(DecimalValue(h), DecimalValue(m), DecimalValue(s)) >= DurationLimit ==>
              ParseDuration(h + ":" + m + ":" + s) == None
  {
    assert ':' !in h && ':' !in m && ':' !in s by {
      assert !IsDigit(':');
    }
    var t := h + [':'] + m + [':'] + s;
    assert t == h + ":" + m + ":" + s;
    SplitThree(h, m, s, ':');
    var parts := Split(t, ':');
    assert parts == [h, m, s];
    assert t[|t| - 1] == s[|s| - 1] && IsDigit(s[|s| - 1]);
    assert DropFinalNewline(t) == t;
    ClockThree(t, h, m, s);
  }

  /** Text splitting into three runs of digits reads as H:M:S. */
  lemma ClockThree(t: string, h: string, m: string, s: string)
    requires t != "" && Split(t, ':') == [h, m, s]
    requires |h| > 0 && |m| > 0 && |s| > 0 && AllDigits(h) && AllDigits(m) && AllDigits(s)
    ensures Seconds(DecimalValue(h), DecimalValue(m), DecimalValue(s)) < DurationLimit ==>
              ParseClock(t) == Some(Seconds(DecimalValue(h), DecimalValue(m), DecimalValue(s)))
    ensures Seconds(DecimalValue(h), DecimalValue(m), DecimalValue(s)) >= DurationLimit ==>
              ParseClock(t) == None
  {
    var parts := Split(t, ':');
    assert |parts| == 3 && parts[0] == h && parts[1] == m && parts[2] == s;
    assert DigitFields(parts);
    var secs := Seconds(DecimalValue(h), DecimalValue(m), DecimalValue(s));
    assert ParseClock(t) == if secs < DurationLimit then Some(secs) else None;
  }

  /** `date.toordinal()`: 1 for 0001-01-01. */
  function Ordinal(d: Date): (r: int)
    requires ValidDate(d)
    ensures r >= 1
  {
    var p := d.year - 1;
    p * 365 + p / 4 - p / 100 + p / 400 + DaysBeforeMonth(d.year, d.month) + d.day
  }

  function DaysBeforeMonth(y: int, m: int): (r: int)
    requires 1 <= m <= 12
    ensures r >= 0
  {
    if m == 1 then 0 else DaysBeforeMonth(y, m - 1) + DaysInMonth(y, m - 1)
  }

  /** A month ends no later than its year: day `DaysBeforeMonth + DaysInMonth`
      is at most the last day of the year. */
  lemma {:induction false} MonthInYear(y: int, m: int)
    requires 1 <= m <= 12
    ensures DaysBeforeMonth(y, m) + DaysInMonth(y, m) <= DaysBeforeMonth(y, 12) + 31
    decreases 12 - m
  {
    if m < 12 {
      MonthInYear(y, m + 1);
    }
  }

  /** The days before December: 334, one more in a leap year. */
  lemma DaysBeforeDecember(y: int)
    ensures DaysBeforeMonth(y, 12) == 334 + (if IsLeap(y) then 1 else 0)
  {
    var leap := if IsLeap(y) then 1 else 0;
    assert DaysBeforeMonth(y, 2) == 31;
    assert DaysBeforeMonth(y, 3) == 59 + leap;
    assert DaysBeforeMonth(y, 4) == 90 + leap;
    assert DaysBeforeMonth(y, 5) == 120 + leap;
    assert DaysBeforeMonth(y, 6) == 151 + leap;
    assert DaysBeforeMonth(y, 7) == 181 + leap;
    assert DaysBeforeMonth(y, 8) == 212 + leap;
    assert DaysBeforeMonth(y, 9) == 243 + leap;
    assert DaysBeforeMonth(y, 10) == 273 + leap;
    assert DaysBeforeMonth(y, 11) == 304 + leap;
  }

  /** Every date `strptime` gives lies within `datetime`'s range: its
      ordinal is between 1 and that of 9999-12-31. */
  lemma OrdinalInRange(d: Date)
    requires ValidDate(d)
    ensures 1 <= Ordinal(d) <= MaxOrdinal
  {
    MonthInYear(d.year, d.month);
    DaysBeforeDecember(d.year);
    var p := d.year - 1;
    if d.year == 9999 {
      assert !IsLeap(9999);
      assert p * 365 + p / 4 - p / 100 + p / 400 == MaxOrdinal - 365;
    } else {
      assert p / 4 <= 2499 && p / 400 <= 24 && p / 100 >= 0;
    }
  }

  /** The naive seconds of 00:00 on `d`. */
  function Midnight(d: Date): (t: int)
    requires ValidDate(d)
    ensures 0 <= t <= DateTimeLimit - SecondsPerDay
  {
    OrdinalInRange(d);
    (Ordinal(d) - 1) * SecondsPerDay
  }

  /** The start instant of a trip: the service date at 12:00, plus the start
      time, minus 12 hours, with the zone attached by `replace`. In naive
      arithmetic the noon anchor cancels: the instant is `startTime` seconds
      after midnight of the service date, on whatever calendar day that
      falls. None when the sum at noon passes `datetime.max`, where the
      addition raises OverflowError before the 12 hours come off. */
  function StartInstant(date: Date, startTime: nat, zone: string): (r: Option<DateTime>)
    requires ValidDate(date)
    ensures r.Some? <==> Midnight(date) + Noon + startTime < DateTimeLimit
    ensures r.Some? ==> r.value.zone == zone
    ensures r.Some? ==> r.value.naive - Midnight(date) == startTime
    ensures r.Some? ==> 0 <= r.value.naive < DateTimeLimit - Noon
  {
    var noon := Midnight(date) + Noon;
    if noon + startTime < DateTimeLimit then Some(DateTime(noon + startTime - Noon, zone)) else None
  }

  /** A service date and start time as a realtime TripDescriptor carries
      them, read as `get_journey` reads them: None where either does not
      parse, or where the start at noon passes `datetime.max`. */
  function ScheduledStart(startDate: string, startTime: string, zone: string): (r: Option<DateTime>)
    ensures r.Some? <==>
              ParseDate(startDate).Some? && ParseDuration(startTime).Some? &&
              Midnight(ParseDate(startDate).value) + Noon + ParseDuration(startTime).value < DateTimeLimit
    ensures r.Some? ==> r.value.zone == zone
    ensures r.Some? ==>
              r.value.naive == Midnight(ParseDate(startDate).value) + ParseDuration(startTime).value
  {
    match (ParseDate(startDate), ParseDuration(startTime))
    case (Some(d), Some(t)) => StartInstant(d, t, zone)
    case _ => None
  }

  /** "99991231" is 9999-12-31, the last date `strptime` gives. */
  lemma ParseLastDay()
    ensures ParseDate("99991231") == Some(Date(9999, 12, 31))
  {
    var d := Date(9999, 12, 31);
    assert PadDigits(9, 1) == "9";
    assert PadDigits(99, 2) == "99";
    assert PadDigits(999, 3) == "999";
    assert PadDigits(9999, 4) == "9999";
    assert PadDigits(1, 1) == "1" && PadDigits(3, 1) == "3";
    assert PadDigits(12, 2) == "12" && PadDigits(31, 2) == "31";
    assert FormatDate(d) == "99991231";
    ParseFormatDate(d);
  }

  /** 9999-12-31 is day MaxOrdinal. */
  lemma LastOrdinal()
    ensures Ordinal(Date(9999, 12, 31)) == MaxOrdinal
  {
    DaysBeforeDecember(9999);
    assert !IsLeap(9999);
  }

  /** A two-digit clock, "HH:MM:SS", is read as its seconds. */
  lemma ParseClockDigits(t: string, h: nat, m: nat, s: nat)
    requires h < 100 && m < 100 && s < 100
    requires t == PadDigits(h, 2) + ":" + PadDigits(m, 2) + ":" + PadDigits(s, 2)
    ensures ParseDuration(t) == Some(Seconds(h, m, s))
  {
    TwoDigitsValue(h);
    TwoDigitsValue(m);
    TwoDigitsValue(s);
    ParseFields(PadDigits(h, 2), PadDigits(m, 2), PadDigits(s, 2));
  }

  /** The start on 9999-12-31 at `t` seconds is placed exactly when `t` is
      under 12 hours. */
  lemma LastDayStart(t: string, secs: nat, zone: string)
    requires ParseDuration(t) == Some(secs)
    ensures ScheduledStart("99991231", t, zone).Some? <==> secs < Noon
  {
    ParseLastDay();
    LastOrdinal();
    assert Midnight(Date(9999, 12, 31)) + Noon + Noon == DateTimeLimit;
  }

  /** "12:00:00" is twelve hours. */
  lemma NoonParses()
    ensures ParseDuration("12:00:00") == Some(Noon)
  {
    assert PadDigits(12, 2) == "12" && PadDigits(0, 2) == "00";
    ParseClockDigits("12:00:00", 12, 0, 0);
  }

  /** "11:59:59" is one second short of twelve hours. */
  lemma BeforeNoonParses()
    ensures ParseDuration("11:59:59") == Some(Noon - 1)
  {
    assert PadDigits(11, 2) == "11" && PadDigits(59, 2) == "59";
    ParseClockDigits("11:59:59", 11, 59, 59);
  }

  /** A trip starting at noon on 9999-12-31 cannot be placed: the date at
      noon plus 12 hours reaches 10000-01-01, so `get_journey` raises. */
  lemma LastDayNoonOverflows(zone: string)
    ensures ScheduledStart("99991231", "12:00:00", zone).None?
  {
    NoonParses();
    LastDayStart("12:00:00", Noon, zone);
  }

  /** One second earlier still fits: 11:59:59 on 9999-12-31 is a start. */
  lemma LastDayMorningFits(zone: string)
    ensures ScheduledStart("99991231", "11:59:59", zone).Some?
  {
    BeforeNoonParses();
    LastDayStart("11:59:59", Noon - 1, zone);
  }
}
