/** The command-line date check: `strptime(arg, "%Y%m%d")` decides whether the
    run proceeds with the given date, and without an argument the run uses today. */
module RunDate {
  import opened Wrappers
  import opened Digits
  import opened Calendar

  /** `strptime(arg, "%Y%m%d")` on the fixed-width form: eight ASCII digits that
      name a real calendar date. */
  function ParseRunDate(arg: string): Option<Date>
  {
    if |arg| == 8 && AllDigits(arg) then
      assert AllDigits(arg[..4]) && AllDigits(arg[4..6]) && AllDigits(arg[6..]);
      var d := Date(Value(arg[..4]), Value(arg[4..6]), Value(arg[6..]));
      if ValidDate(d) then Some(d) else None
    else None
  }

  predicate IsValidRunDate(arg: string)
  {
    ParseRunDate(arg).Some?
  }

  /** `date.strftime("%Y%m%d")`. */
  function FormatRunDate(d: Date): (s: string)
    requires ValidDate(d)
    ensures |s| == 8 && AllDigits(s)
  {
    Pad(d.year, 4) + Pad(d.month, 2) + Pad(d.day, 2)
  }

  /** Every real date, written as YYYYMMDD, is accepted and read back unchanged. */
  lemma ParseOfFormat(d: Date)
    requires ValidDate(d)
    ensures ParseRunDate(FormatRunDate(d)) == Some(d)
  {
    var s := FormatRunDate(d);
    assert s[..4] == Pad(d.year, 4) && s[4..6] == Pad(d.month, 2) && s[6..] == Pad(d.day, 2);
    assert Pow10(2) == 100 && Pow10(4) == 10000;
    ValueOfPad(d.year, 4);
    ValueOfPad(d.month, 2);
    ValueOfPad(d.day, 2);
  }

  /** Every accepted argument is a real date, and it is exactly that date's YYYYMMDD form. */
  lemma FormatOfParse(arg: string)
    requires IsValidRunDate(arg)
    ensures ValidDate(ParseRunDate(arg).value)
    ensures FormatRunDate(ParseRunDate(arg).value) == arg
  {
    assert AllDigits(arg[..4]) && AllDigits(arg[4..6]) && AllDigits(arg[6..]);
    PadOfValue(arg[..4]);
    PadOfValue(arg[4..6]);
    PadOfValue(arg[6..]);
    assert arg == arg[..4] + arg[4..6] + arg[6..];
  }

  /** An argument is accepted if and only if it is the YYYYMMDD form of a real
      calendar date, the leap-year rule included. */
  lemma AcceptedIffCalendarDate(arg: string)
    ensures IsValidRunDate(arg) <==> exists d :: ValidDate(d) && FormatRunDate(d) == arg
  {
    if IsValidRunDate(arg) {
      FormatOfParse(arg);
    }
    if d :| ValidDate(d) && FormatRunDate(d) == arg {
      ParseOfFormat(d);
    }
  }

  /** February 29 is accepted in a leap year, a century year included when it is divisible by 400. */
  lemma LeapDayAccepted()
    ensures IsValidRunDate("20240229") && IsValidRunDate("20000229")
  {
    var a, b := "20240229", "20000229";
    assert a[..4] == "2024";
    assert b[..4] == "2000";
    assert a[4..6] == "02";
    assert b[4..6] == "02";
    assert a[6..] == "29";
    assert b[6..] == "29";
    ValueOfFour("2024");
    ValueOfFour("2000");
    ValueOfTwo("02");
    ValueOfTwo("29");
  }

  /** February 29 is refused in a common year, a century year not divisible by 400 included. */
  lemma LeapDayRefused()
    ensures !IsValidRunDate("20230229") && !IsValidRunDate("19000229")
  {
    var a, b := "20230229", "19000229";
    assert a[..4] == "2023";
    assert b[..4] == "1900";
    assert a[4..6] == "02";
    assert b[4..6] == "02";
    assert a[6..] == "29";
    assert b[6..] == "29";
    ValueOfFour("2023");
    ValueOfFour("1900");
    ValueOfTwo("02");
    ValueOfTwo("29");
  }

  /** Year 0 and month 13 are refused. */
  lemma OutOfRangeRefused()
    ensures !IsValidRunDate("00000101") && !IsValidRunDate("20251301")
  {
    var a, b := "00000101", "20251301";
    assert a[..4] == "0000" && b[4..6] == "13";
    ValueOfFour("0000");
    ValueOfTwo("13");
  }

  /** What the program does with its arguments before any work. */
  datatype Startup = Proceed(targetDate: string) | Exit(code: int)

  /** `argv` is `sys.argv`, program name first; `today` is the clock's date.
      An argument is used only if it is valid; an invalid one ends the run with
      status 1 and is never replaced by today's date. */
  function ResolveTargetDate(argv: seq<string>, today: Date): (r: Startup)
    requires ValidDate(today)
    ensures r.Proceed? ==> IsValidRunDate(r.targetDate)
    ensures r.Exit? <==> |argv| > 1 && !IsValidRunDate(argv[1])
    ensures r.Exit? ==> r.code == 1
    ensures |argv| > 1 && r.Proceed? ==> r.targetDate == argv[1]
    ensures |argv| <= 1 ==> r == Proceed(FormatRunDate(today))
  {
    if |argv| > 1 then
      if IsValidRunDate(argv[1]) then Proceed(argv[1]) else Exit(1)
    else
      ParseOfFormat(today);
      Proceed(FormatRunDate(today))
  }
}
