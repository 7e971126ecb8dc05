/**
 * Calendar dates and clock times as `datetime.strptime` reads them with the
 * formats `%Y-%m-%d` and `%H:%M`: a four-digit year from 1 to 9999, a
 * month and day forming a real Gregorian date, an hour below 24 and a
 * minute below 60.  `strptime` also reads month, day, hour and minute
 * fields without zero padding (and a day padded with a blank); this model
 * accepts only the zero-padded two-digit spelling of each.
 */
module Calendar {
  import opened Wrappers
  import opened Text

  datatype Date = Date(year: int, month: int, day: int)

  datatype Time = Time(hour: int, minute: int)

  /** The Gregorian rule: every fourth year, except centuries not
      divisible by 400. */
  predicate IsLeapYear(y: int) {
    y % 4 == 0 && (y % 100 != 0 || y % 400 == 0)
  }

  function DaysInMonth(y: int, m: int): (n: int)
    requires 1 <= m <= 12
    ensures 28 <= n <= 31
    ensures n == 31 <==> m in {1, 3, 5, 7, 8, 10, 12}
    ensures n == 30 <==> m in {4, 6, 9, 11}
    ensures m == 2 ==> (n == 29 <==> IsLeapYear(y))
  {
    if m == 2 then (if IsLeapYear(y) then 29 else 28)
    else if m == 4 || m == 6 || m == 9 || m == 11 then 30
    else 31
  }

  /** A date `datetime` can represent (MINYEAR 1 to MAXYEAR 9999). */
  predicate ValidDate(d: Date) {
    1 <= d.year <= 9999 && 1 <= d.month <= 12 && 1 <= d.day <= DaysInMonth(d.year, d.month)
  }

  predicate ValidTime(t: Time) {
    0 <= t.hour < 24 && 0 <= t.minute < 60
  }

  /** The `YYYY-MM-DD` spelling of a date. */
  function FormatDate(d: Date): (s: string)
    requires ValidDate(d)
    ensures |s| == 10
  {
    Pad4(d.year) + "-" + Pad2(d.month) + "-" + Pad2(d.day)
  }

  /** The `HH:MM` spelling of a time. */
  function FormatTime(t: Time): (s: string)
    requires ValidTime(t)
    ensures |s| == 5
  {
    Pad2(t.hour) + ":" + Pad2(t.minute)
  }

  /** The text has the shape `DDDD-DD-DD` with D a digit. */
  predicate IsDateShape(s: string) {
    |s| == 10 && s[4] == '-' && s[7] == '-'
    && AllDigits(s[..4]) && AllDigits(s[5..7]) && AllDigits(s[8..])
  }

  /** The text has the shape `DD:DD` with D a digit. */
  predicate IsTimeShape(s: string) {
    |s| == 5 && s[2] == ':' && AllDigits(s[..2]) && AllDigits(s[3..])
  }

  /** `strptime(s, "%Y-%m-%d")`: the date, or None when the text is not
      a zero-padded `YYYY-MM-DD` spelling of a real date. */
  function ParseDate(s: string): (r: Option<Date>)
    ensures r.Some? ==> ValidDate(r.value) && IsDateShape(s)
  {
    if IsDateShape(s) then
      var d := Date(DigitsValue(s[..4]), DigitsValue(s[5..7]), DigitsValue(s[8..]));
      if ValidDate(d) then Some(d) else None
    else None
  }

  /** `strptime(s, "%H:%M")`: the time, or None when the text is not a
      zero-padded 24-hour `HH:MM` clock time. */
  function ParseTime(s: string): (r: Option<Time>)
    ensures r.Some? ==> ValidTime(r.value) && IsTimeShape(s)
  {
    if IsTimeShape(s) then
      var t := Time(DigitsValue(s[..2]), DigitsValue(s[3..]));
      if ValidTime(t) then Some(t) else None
    else None
  }

  /** Printing a valid date and parsing it back gives the same date. */
  lemma ParseFormatDate(d: Date)
    requires ValidDate(d)
    ensures ParseDate(FormatDate(d)) == Some(d)
  {
    var f := FormatDate(d);
    assert f[..4] == Pad4(d.year);
    assert f[5..7] == Pad2(d.month);
    assert f[8..] == Pad2(d.day);
  }

  /** Every text the date parser accepts is the spelling of the date it
      reads. */
  lemma FormatParseDate(s: string)
    requires ParseDate(s).Some?
    ensures FormatDate(ParseDate(s).value) == s
  {
    Pad4OfValue(s[..4]);
    Pad2OfValue(s[5..7]);
    Pad2OfValue(s[8..]);
    assert s == s[..4] + "-" + s[5..7] + "-" + s[8..];
  }

  /** The date parser accepts exactly the spellings of valid dates, and
      reads each back as the date it spells. */
  lemma ParseDateIff(s: string, d: Date)
    ensures ParseDate(s) == Some(d) <==> ValidDate(d) && s == FormatDate(d)
  {
    if ValidDate(d) && s == FormatDate(d) {
      ParseFormatDate(d);
    }
    if ParseDate(s) == Some(d) {
      FormatParseDate(s);
    }
  }

  /** Printing a valid time and parsing it back gives the same time. */
  lemma ParseFormatTime(t: Time)
    requires ValidTime(t)
    ensures ParseTime(FormatTime(t)) == Some(t)
  {
    var f := FormatTime(t);
    assert f[..2] == Pad2(t.hour);
    assert f[3..] == Pad2(t.minute);
  }

  /** Every text the time parser accepts is the spelling of the time it
      reads. */
  lemma FormatParseTime(s: string)
    requires ParseTime(s).Some?
    ensures FormatTime(ParseTime(s).value) == s
  {
    Pad2OfValue(s[..2]);
    Pad2OfValue(s[3..]);
    assert s == s[..2] + ":" + s[3..];
  }

  /** The time parser accepts exactly the spellings of valid times, and
      reads each back as the time it spells. */
  lemma ParseTimeIff(s: string, t: Time)
    ensures ParseTime(s) == Some(t) <==> ValidTime(t) && s == FormatTime(t)
  {
    if ValidTime(t) && s == FormatTime(t) {
      ParseFormatTime(t);
    }
    if ParseTime(s) == Some(t) {
      FormatParseTime(s);
    }
  }

  /** February 29 exists exactly in leap years. */
  lemma LeapDay(y: int)
    requires 1 <= y <= 9999
    ensures ValidDate(Date(y, 2, 29)) <==> IsLeapYear(y)
  {
  }

  function DaysInYear(y: int): (n: int)
  {
    DaysInMonth(y, 1) + DaysInMonth(y, 2) + DaysInMonth(y, 3) + DaysInMonth(y, 4)
    + DaysInMonth(y, 5) + DaysInMonth(y, 6) + DaysInMonth(y, 7) + DaysInMonth(y, 8)
    + DaysInMonth(y, 9) + DaysInMonth(y, 10) + DaysInMonth(y, 11) + DaysInMonth(y, 12)
  }

  /** The month lengths add up to the Gregorian year lengths. */
  lemma YearLength(y: int)
    ensures DaysInYear(y) == if IsLeapYear(y) then 366 else 365
  {
  }

  /** Any zero-padded `YYYY-MM-DD` text, real date or not, is accepted
      exactly when it names a valid date. */
  lemma ParseDateSpelling(y: nat, m: nat, d: nat)
    requires y < 10000 && m < 100 && d < 100
    ensures ParseDate(Pad4(y) + "-" + Pad2(m) + "-" + Pad2(d))
         == if ValidDate(Date(y, m, d)) then Some(Date(y, m, d)) else None
  {
    var s := Pad4(y) + "-" + Pad2(m) + "-" + Pad2(d);
    assert s[..4] == Pad4(y) && s[5..7] == Pad2(m) && s[8..] == Pad2(d);
  }

  /** Any zero-padded `HH:MM` text, real time or not, is accepted exactly
      when it names a valid time. */
  lemma ParseTimeSpelling(h: nat, m: nat)
    requires h < 100 && m < 100
    ensures ParseTime(Pad2(h) + ":" + Pad2(m))
         == if ValidTime(Time(h, m)) then Some(Time(h, m)) else None
  {
    var s := Pad2(h) + ":" + Pad2(m);
    assert s[..2] == Pad2(h) && s[3..] == Pad2(m);
  }

  /** 2023 is not a leap year and 1900 is a century not divisible by 400,
      so neither has a February 29; 2024 and 2000 do.  April has 30 days,
      there is no month 13 and there is no year 0. */
  lemma DateExamples()
    ensures !ValidDate(Date(2023, 2, 29)) && !ValidDate(Date(1900, 2, 29))
    ensures ValidDate(Date(2024, 2, 29)) && ValidDate(Date(2000, 2, 29))
    ensures !ValidDate(Date(2023, 4, 31)) && !ValidDate(Date(2023, 13, 1))
    ensures !ValidDate(Date(0, 1, 1))
  {
  }
}
