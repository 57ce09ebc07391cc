/** The kickoff label drawn on each graphic: the event's UTC timestamp, six
    hours earlier, on a 12-hour clock with a "CT" suffix, or "TIME TBD" when the
    timestamp cannot be used. */
module GameTime {
  import opened Wrappers
  import opened Digits
  import opened Calendar

  datatype DateTime = DateTime(date: Date, hour: int, minute: int)

  const MinDateTime := DateTime(MinDate, 0, 0)

  /** The fixed offset subtracted from UTC; there is no daylight-saving rule. */
  const OffsetHours := 6

  const TimeTbd := "TIME TBD"

  predicate ValidDateTime(t: DateTime)
  {
    ValidDate(t.date) && 0 <= t.hour < 24 && 0 <= t.minute < 60
  }

  /** Minutes since the start of day 0, the scale on which `timedelta` arithmetic works. */
  function Minutes(t: DateTime): int
    requires ValidDateTime(t)
  {
    Ordinal(t.date) * 1440 + t.hour * 60 + t.minute
  }

  /** The fixed-width shape of `%Y-%m-%dT%H:%MZ`. `strptime` matches the literal
      letters without regard to case, so 't' and 'z' are accepted too. */
  predicate IsTimestampShape(s: string)
  {
    && |s| == 17
    && AllDigits(s[0..4]) && s[4] == '-' && AllDigits(s[5..7]) && s[7] == '-' && AllDigits(s[8..10])
    && (s[10] == 'T' || s[10] == 't')
    && AllDigits(s[11..13]) && s[13] == ':' && AllDigits(s[14..16])
    && (s[16] == 'Z' || s[16] == 'z')
  }

  /** `datetime.strptime(s, '%Y-%m-%dT%H:%MZ')` on the fixed-width form. */
  function ParseTimestamp(s: string): Option<DateTime>
  {
    if IsTimestampShape(s) then
      var t := DateTime(Date(Value(s[0..4]), Value(s[5..7]), Value(s[8..10])), Value(s[11..13]), Value(s[14..16]));
      if ValidDateTime(t) then Some(t) else None
    else None
  }

  /** The canonical text of a timestamp, upper-case separators. */
  function FormatTimestamp(t: DateTime): (s: string)
    requires ValidDateTime(t)
    ensures |s| == 17
  {
    Pad(t.date.year, 4) + "-" + Pad(t.date.month, 2) + "-" + Pad(t.date.day, 2) + "T"
      + Pad(t.hour, 2) + ":" + Pad(t.minute, 2) + "Z"
  }

  /** `t - timedelta(hours=6)`: the same day when the hour allows it, else the
      previous day; None is Python's OverflowError below 0001-01-01 00:00. */
  function ShiftBack(t: DateTime): Option<DateTime>
    requires ValidDateTime(t)
  {
    if t.hour >= OffsetHours then Some(DateTime(t.date, t.hour - OffsetHours, t.minute))
    else
      match PrevDay(t.date)
      case None => None
      case Some(p) => Some(DateTime(p, t.hour + 24 - OffsetHours, t.minute))
  }

  /** The hour that `%I` writes: 12 for midnight and noon. */
  function Hour12(h: int): (r: int)
    requires 0 <= h < 24
    ensures 1 <= r <= 12
  {
    if h % 12 == 0 then 12 else h % 12
  }

  /** What `%p` writes in the C locale. */
  function Meridiem(h: int): string
  {
    if h < 12 then "AM" else "PM"
  }

  /** `strftime('%I:%M %p CT')`. */
  function Clock12(t: DateTime): string
    requires ValidDateTime(t)
  {
    Pad(Hour12(t.hour), 2) + ":" + Pad(t.minute, 2) + " " + Meridiem(t.hour) + " CT"
  }

  /** Drops one leading '0', if there is one. */
  function StripLeadingZero(s: string): string
  {
    if |s| > 0 && s[0] == '0' then s[1..] else s
  }

  /** The label of an event whose `date` field is `raw` (None when absent); every
      failure inside the `try` yields the fallback label. */
  function GameTimeLabel(raw: Option<string>): string
  {
    match raw
    case None => TimeTbd
    case Some(s) =>
      match ParseTimestamp(s)
      case None => TimeTbd
      case Some(t) =>
        match ShiftBack(t)
        case None => TimeTbd
        case Some(local) => StripLeadingZero(Clock12(local))
  }

  /** A shape-conforming string splits into its five fields and four separators:
      the date part, the 'T', the time part and the 'Z'. */
  lemma ShapeFields(s: string)
    requires IsTimestampShape(s)
    ensures s[..10] == s[0..4] + "-" + s[5..7] + "-" + s[8..10]
    ensures s[11..16] == s[11..13] + ":" + s[14..16]
    ensures s == s[..10] + [s[10]] + s[11..16] + [s[16]]
  {
  }

  /** The canonical layout, for fields of the right widths, puts each field and
      each separator at its fixed offset. */
  lemma FieldsOfLayout(y: string, mo: string, d: string, h: string, mi: string)
    requires |y| == 4 && |mo| == 2 && |d| == 2 && |h| == 2 && |mi| == 2
    ensures var s := y + "-" + mo + "-" + d + "T" + h + ":" + mi + "Z";
      && |s| == 17
      && s[0..4] == y && s[5..7] == mo && s[8..10] == d && s[11..13] == h && s[14..16] == mi
      && s[4] == '-' && s[7] == '-' && s[10] == 'T' && s[13] == ':' && s[16] == 'Z'
  {
    var date := y + "-" + mo + "-" + d;
    var time := h + ":" + mi;
    assert |date| == 10 && date[0..4] == y && date[5..7] == mo && date[8..10] == d;
    assert |time| == 5 && time[0..2] == h && time[3..5] == mi;
    var s := y + "-" + mo + "-" + d + "T" + h + ":" + mi + "Z";
    assert s == date + "T" + time + "Z";
    assert s[0..10] == date && s[11..16] == time;
    assert s[0..4] == date[0..4] && s[5..7] == date[5..7] && s[8..10] == date[8..10];
    assert s[11..13] == time[0..2] && s[14..16] == time[3..5];
  }

  /** Every valid timestamp, formatted, is parsed back to itself. */
  lemma ParseOfFormat(t: DateTime)
    requires ValidDateTime(t)
    ensures ParseTimestamp(FormatTimestamp(t)) == Some(t)
  {
    var s := FormatTimestamp(t);
    FieldsOfLayout(Pad(t.date.year, 4), Pad(t.date.month, 2), Pad(t.date.day, 2), Pad(t.hour, 2), Pad(t.minute, 2));
    assert Pow10(2) == 100 && Pow10(4) == 10000;
    ValueOfPad(t.date.year, 4);
    ValueOfPad(t.date.month, 2);
    ValueOfPad(t.date.day, 2);
    ValueOfPad(t.hour, 2);
    ValueOfPad(t.minute, 2);
  }

  /** Every accepted string is the canonical text of a valid timestamp, up to the
      case of its 'T' and 'Z'. */
  lemma FormatOfParse(s: string)
    requires ParseTimestamp(s).Some?
    ensures ValidDateTime(ParseTimestamp(s).value)
    ensures FormatTimestamp(ParseTimestamp(s).value) == s[..10] + "T" + s[11..16] + "Z"
    ensures (s[10] == 'T' || s[10] == 't') && (s[16] == 'Z' || s[16] == 'z')
  {
    PadOfValue(s[0..4]);
    PadOfValue(s[5..7]);
    PadOfValue(s[8..10]);
    PadOfValue(s[11..13]);
    PadOfValue(s[14..16]);
    ShapeFields(s);
  }

  /** The shift fails exactly within the first six hours of 0001-01-01. */
  lemma ShiftBackFailsOnlyAtStart(t: DateTime)
    requires ValidDateTime(t)
    ensures ShiftBack(t).None? <==> t.date == MinDate && t.hour < OffsetHours
  {
    PrevDayIsOneDayEarlier(t.date);
  }

  /** On the minute scale, `datetime.min` is minute 1440 ... */
  lemma MinutesOfMin()
    ensures Minutes(MinDateTime) == 1440
  {
    assert DaysBeforeYear(1) == 0 && DaysBeforeMonth(1, 1) == 0;
  }

  /** ... the first day covers minutes 1440 to 2879 ... */
  lemma MinutesOnFirstDay(t: DateTime)
    requires ValidDateTime(t) && t.date == MinDate
    ensures Minutes(t) == 1440 + t.hour * 60 + t.minute
  {
  }

  /** ... and every later day lies above them. */
  lemma MinutesAfterFirstDay(t: DateTime)
    requires ValidDateTime(t) && t.date != MinDate
    ensures Minutes(t) >= 2880
  {
    FirstDay(t.date);
  }

  /** Equivalently, it fails exactly when the true result would precede `datetime.min`. */
  lemma ShiftBackFailsBelowMin(t: DateTime)
    requires ValidDateTime(t)
    ensures ShiftBack(t).None? <==> Minutes(t) - OffsetHours * 60 < Minutes(MinDateTime)
  {
    ShiftBackFailsOnlyAtStart(t);
    MinutesOfMin();
    if t.date == MinDate {
      MinutesOnFirstDay(t);
    } else {
      MinutesAfterFirstDay(t);
    }
  }

  /** A successful shift is exactly six hours earlier on the minute scale, and
      keeps the minute. */
  lemma ShiftBackIsSixHoursEarlier(t: DateTime)
    requires ValidDateTime(t)
    ensures ShiftBack(t).Some? ==>
      var l := ShiftBack(t).value;
      && ValidDateTime(l)
      && Minutes(l) == Minutes(t) - OffsetHours * 60
      && l.hour == (t.hour - OffsetHours) % 24
      && l.minute == t.minute
  {
    PrevDayIsOneDayEarlier(t.date);
  }

  /** Stripping one '0' from a two-digit field followed by any text leaves the
      unpadded number followed by that text. */
  lemma StripPadded(n: nat, rest: string)
    requires 1 <= n < 100
    ensures StripLeadingZero(Pad(n, 2) + rest) == Decimal(n) + rest
    ensures (Decimal(n) + rest)[0] != '0'
  {
    TwoDigitsWithoutLeadingZero(n);
    ValueOfDecimal(n);
    if n < 10 {
      assert Pad(n, 2) + rest == "0" + (Decimal(n) + rest);
    }
  }

  /** Stripping one '0' from the clock text leaves the hour with no leading zero. */
  lemma ClockWithoutLeadingZero(l: DateTime)
    requires ValidDateTime(l)
    ensures StripLeadingZero(Clock12(l)) == Decimal(Hour12(l.hour)) + ":" + Pad(l.minute, 2) + " " + Meridiem(l.hour) + " CT"
    ensures StripLeadingZero(Clock12(l))[0] != '0'
  {
    var rest := ":" + Pad(l.minute, 2) + " " + Meridiem(l.hour) + " CT";
    var h12 := Hour12(l.hour);
    assert Clock12(l) == Pad(h12, 2) + rest;
    StripPadded(h12, rest);
    assert Decimal(h12) + ":" + Pad(l.minute, 2) + " " + Meridiem(l.hour) + " CT" == Decimal(h12) + rest;
  }

  /** The label of a usable timestamp: the hour six hours earlier on a 12-hour
      clock with no leading zero, the minute in two digits, AM or PM, and " CT". */
  lemma LabelOfTimestamp(s: string, t: DateTime)
    requires ParseTimestamp(s) == Some(t)
    requires !(t.date == MinDate && t.hour < OffsetHours)
    ensures var h := (t.hour - OffsetHours) % 24;
      GameTimeLabel(Some(s)) == Decimal(Hour12(h)) + ":" + Pad(t.minute, 2) + " " + Meridiem(h) + " CT"
    ensures GameTimeLabel(Some(s))[0] != '0'
  {
    ShiftBackFailsOnlyAtStart(t);
    ShiftBackIsSixHoursEarlier(t);
    var l := ShiftBack(t).value;
    assert GameTimeLabel(Some(s)) == StripLeadingZero(Clock12(l));
    ClockWithoutLeadingZero(l);
  }

  /** The label is "TIME TBD" exactly when the date is absent, does not parse, or
      lies within six hours of `datetime.min`. */
  lemma LabelFallback(raw: Option<string>)
    ensures GameTimeLabel(raw) == TimeTbd <==>
      || raw.None?
      || ParseTimestamp(raw.value).None?
      || (ParseTimestamp(raw.value).value.date == MinDate && ParseTimestamp(raw.value).value.hour < OffsetHours)
  {
    if raw.Some? && ParseTimestamp(raw.value).Some? {
      var t := ParseTimestamp(raw.value).value;
      ShiftBackFailsOnlyAtStart(t);
      if !(t.date == MinDate && t.hour < OffsetHours) {
        LabelOfTimestamp(raw.value, t);
        assert IsDigit(GameTimeLabel(raw)[0]);
      }
    }
  }

  /** "2025-11-15T19:30Z" parses to 2025-11-15 19:30. */
  lemma EveningParsed()
    ensures ParseTimestamp("2025-11-15T19:30Z") == Some(DateTime(Date(2025, 11, 15), 19, 30))
  {
    EveningFields();
  }

  /** "2025-11-15T19:30Z" has the timestamp shape, and its five fields read as 2025, 11, 15, 19 and 30. */
  lemma EveningFields()
    ensures var s := "2025-11-15T19:30Z";
      && IsTimestampShape(s)
      && Value(s[0..4]) == 2025 && Value(s[5..7]) == 11 && Value(s[8..10]) == 15
      && Value(s[11..13]) == 19 && Value(s[14..16]) == 30
  {
    var s := "2025-11-15T19:30Z";
    FourDigitField(s);
    TwoDigitField(s, 5);
    TwoDigitField(s, 8);
    TwoDigitField(s, 11);
    TwoDigitField(s, 14);
  }

  /** The clock text of 13:30, without its leading zero. */
  lemma EveningClock()
    ensures Decimal(Hour12(13)) + ":" + Pad(30, 2) + " " + Meridiem(13) + " CT" == "1:30 PM CT"
  {
    PadTwoDigits(30);
    assert DigitChar(3) == '3' && DigitChar(0) == '0';
    assert Decimal(Hour12(13)) == "1";
  }

  /** The evening example: 19:30 UTC is 1:30 PM CT. */
  lemma EveningExample()
    ensures GameTimeLabel(Some("2025-11-15T19:30Z")) == "1:30 PM CT"
  {
    EveningParsed();
    LabelOfTimestamp("2025-11-15T19:30Z", DateTime(Date(2025, 11, 15), 19, 30));
    assert GameTimeLabel(Some("2025-11-15T19:30Z")) == Decimal(Hour12(13)) + ":" + Pad(30, 2) + " " + Meridiem(13) + " CT";
    EveningClock();
  }

  /** "2025-11-16T00:05Z" parses to 2025-11-16 00:05. */
  lemma AfterMidnightParsed()
    ensures ParseTimestamp("2025-11-16T00:05Z") == Some(DateTime(Date(2025, 11, 16), 0, 5))
  {
    AfterMidnightFields();
  }

  /** "2025-11-16T00:05Z" has the timestamp shape, and its five fields read as 2025, 11, 16, 0 and 5. */
  lemma AfterMidnightFields()
    ensures var s := "2025-11-16T00:05Z";
      && IsTimestampShape(s)
      && Value(s[0..4]) == 2025 && Value(s[5..7]) == 11 && Value(s[8..10]) == 16
      && Value(s[11..13]) == 0 && Value(s[14..16]) == 5
  {
    var s := "2025-11-16T00:05Z";
    FourDigitField(s);
    TwoDigitField(s, 5);
    TwoDigitField(s, 8);
    TwoDigitField(s, 11);
    TwoDigitField(s, 14);
  }

  /** The clock text of 18:05, without its leading zero. */
  lemma AfterMidnightClock()
    ensures Decimal(Hour12(18)) + ":" + Pad(5, 2) + " " + Meridiem(18) + " CT" == "6:05 PM CT"
  {
    PadTwoDigits(5);
    assert DigitChar(0) == '0' && DigitChar(5) == '5';
    assert Decimal(Hour12(18)) == "6";
  }

  /** Shortly after midnight UTC the label is the previous evening's time. */
  lemma AfterMidnightExample()
    ensures GameTimeLabel(Some("2025-11-16T00:05Z")) == "6:05 PM CT"
  {
    AfterMidnightParsed();
    var t := DateTime(Date(2025, 11, 16), 0, 5);
    assert t.date.year != MinDate.year;
    LabelOfTimestamp("2025-11-16T00:05Z", t);
    assert GameTimeLabel(Some("2025-11-16T00:05Z")) == Decimal(Hour12(18)) + ":" + Pad(5, 2) + " " + Meridiem(18) + " CT";
    AfterMidnightClock();
  }

  /** The letter case of the 'T' and 'Z' separators does not change the result. */
  lemma SeparatorCase(s: string)
    requires |s| == 17 && (s[10] == 'T' || s[10] == 't') && (s[16] == 'Z' || s[16] == 'z')
    ensures ParseTimestamp(s) == ParseTimestamp(s[10 := 'T'][16 := 'Z'])
  {
    var u := s[10 := 'T'][16 := 'Z'];
    assert s[0..4] == u[0..4] && s[5..7] == u[5..7] && s[8..10] == u[8..10];
    assert s[11..13] == u[11..13] && s[14..16] == u[14..16];
  }

  /** "2025-11-15t12:00z" parses to 2025-11-15 12:00. */
  lemma LowerCaseParsed()
    ensures ParseTimestamp("2025-11-15t12:00z") == Some(DateTime(Date(2025, 11, 15), 12, 0))
  {
    LowerCaseFields();
  }

  /** "2025-11-15t12:00z" has the timestamp shape, and its five fields read as 2025, 11, 15, 12 and 0. */
  lemma LowerCaseFields()
    ensures var s := "2025-11-15t12:00z";
      && IsTimestampShape(s)
      && Value(s[0..4]) == 2025 && Value(s[5..7]) == 11 && Value(s[8..10]) == 15
      && Value(s[11..13]) == 12 && Value(s[14..16]) == 0
  {
    var s := "2025-11-15t12:00z";
    FourDigitField(s);
    TwoDigitField(s, 5);
    TwoDigitField(s, 8);
    TwoDigitField(s, 11);
    TwoDigitField(s, 14);
  }

  /** The clock text of 06:00, without its leading zero. */
  lemma MorningClock()
    ensures Decimal(Hour12(6)) + ":" + Pad(0, 2) + " " + Meridiem(6) + " CT" == "6:00 AM CT"
  {
    PadTwoDigits(0);
    assert DigitChar(0) == '0';
    assert Decimal(Hour12(6)) == "6";
  }

  /** Lower-case separators are accepted: noon UTC is 6 AM CT. */
  lemma LowerCaseExample()
    ensures GameTimeLabel(Some("2025-11-15t12:00z")) == "6:00 AM CT"
  {
    LowerCaseParsed();
    LabelOfTimestamp("2025-11-15t12:00z", DateTime(Date(2025, 11, 15), 12, 0));
    assert GameTimeLabel(Some("2025-11-15t12:00z")) == Decimal(Hour12(6)) + ":" + Pad(0, 2) + " " + Meridiem(6) + " CT";
    MorningClock();
  }

  /** A day that is not in the calendar gives the fallback. */
  lemma NoSuchDayExample()
    ensures GameTimeLabel(Some("2025-02-30T12:00Z")) == TimeTbd
  {
    var s := "2025-02-30T12:00Z";
    assert s[5..7] == [s[5], s[6]] == "02";
    assert s[8..10] == [s[8], s[9]] == "30";
    ValueOfTwo("02");
    ValueOfTwo("30");
  }

  /** So do the first hours of year 1, where the shift would leave the calendar. */
  lemma FirstHoursExample()
    ensures GameTimeLabel(Some("0001-01-01T05:59Z")) == TimeTbd
  {
    var t := DateTime(MinDate, 5, 59);
    assert FormatTimestamp(t) == "0001-01-01T05:59Z";
    ParseOfFormat(t);
    ShiftBackFailsOnlyAtStart(t);
  }
}
