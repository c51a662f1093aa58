/**
 * The two date helpers of src/utils/dateFormat.js: `parseDate` reads
 * `day/month/year` text into a UTC-midnight `Date`, `formatDate` prints a
 * `Date` as `year-MM-DD`.
 */
module DateFormat {
  import opened Wrappers
  import opened Text
  import opened Calendar

  /** The values `formatDate` may be handed: something that is not a `Date`, an invalid `Date`, or an instant. */
  datatype JsValue = NotADate | InvalidDate | DateAt(date: Day, msOfDay: nat)

  /** `getUTCMonth()`: the zero-based month of an instant. */
  function UtcMonthIndex(d: Day): int {
    d.month - 1
  }

  /** The three numbers `parseInt` reads from the `/`-separated parts; `None` is NaN. */
  function DateParts(s: string): (Option<int>, Option<int>, Option<int>) {
    var parts := Split(s, '/');
    (ParseIntJs(parts[0]),
     if |parts| > 1 then ParseIntJs(parts[1]) else None,
     if |parts| > 2 then ParseIntJs(parts[2]) else None)
  }

  /**
   * The days a `Date` can hold at midnight UTC: at most 8.64e15 ms, that is
   * 10^8 days, either side of 1970-01-01.
   */
  predicate InDateRange(d: CalDate) {
    Ordinal(CalDate(-271821, 4, 20)) <= Ordinal(d) <= Ordinal(CalDate(275760, 9, 13))
  }

  /** `Date.UTC` reads a year from 0 to 99 as 1900 to 1999. */
  function UtcYear(year: int): (y: int)
    ensures 0 <= year <= 99 ==> y == 1900 + year
    ensures !(0 <= year <= 99) ==> y == year
  {
    if 0 <= year <= 99 then 1900 + year else year
  }

  /**
   * The inputs on which `Date.UTC` does not roll an out-of-range day or month
   * over into the next one. Any NaN part is modelled (it gives NaN), and so is
   * any year, inside or outside the range a `Date` can hold.
   */
  predicate ParseDateModelled(s: string) {
    var (day, month, year) := DateParts(s);
    day.Some? && month.Some? && year.Some? ==>
      ValidDate(CalDate(UtcYear(year.value), month.value, day.value))
  }

  /** `new Date(Date.UTC(year, monthIndex, day))` for a day and month that need no roll-over. */
  function DateUtc(year: int, monthIndex: int, day: int): (v: JsValue)
    requires ValidDate(CalDate(UtcYear(year), monthIndex + 1, day))
    ensures v != NotADate
    ensures v.DateAt? <==> InDateRange(CalDate(UtcYear(year), monthIndex + 1, day))
    ensures v.DateAt? ==>
      && v.msOfDay == 0 && UtcMonthIndex(v.date) == monthIndex
      && v.date.year == UtcYear(year) && v.date.day == day
  {
    var d := CalDate(UtcYear(year), monthIndex + 1, day);
    if InDateRange(d) then DateAt(d, 0) else InvalidDate
  }

  /** `parseDate(dateStr)`. */
  function ParseDate(s: string): (v: JsValue)
    requires ParseDateModelled(s)
    ensures v != NotADate
    ensures v == InvalidDate <==>
      var (day, month, year) := DateParts(s);
      || day.None? || month.None? || year.None?
      || !InDateRange(CalDate(UtcYear(year.value), month.value, day.value))
    ensures v.DateAt? ==>
      var (day, month, year) := DateParts(s);
      v == DateAt(CalDate(UtcYear(year.value), month.value, day.value), 0)
  {
    var (day, month, year) := DateParts(s);
    if day.Some? && month.Some? && year.Some? then
      DateUtc(year.value, month.value - 1, day.value)
    else InvalidDate
  }

  /** `String(n).padStart(2, '0')`: below 100, two digits that read back as `n`. */
  function Pad2(n: nat): (r: string)
    ensures n < 100 ==> |r| == 2 && AllDigits(r) && DigitsValue(r) == n
  {
    assert n < 100 ==> |PadStart(NatToString(n), 2, '0')| == 2 && AllDigits(PadStart(NatToString(n), 2, '0')) && DigitsValue(PadStart(NatToString(n), 2, '0')) == n by {
      if n < 100 {
        assert Pow10(2) == 100;
        PaddedValue(n, 2);
      }
    }
    PadStart(NatToString(n), 2, '0')
  }

  /** The `Date` `parseDate` builds from the three numbers it read. */
  lemma ParseDateOfParts(s: string, day: int, month: int, year: int)
    requires DateParts(s) == (Some(day), Some(month), Some(year))
    requires ValidDate(CalDate(UtcYear(year), month, day))
    ensures ParseDateModelled(s)
    ensures var d := CalDate(UtcYear(year), month, day);
      ParseDate(s) == if InDateRange(d) then DateAt(d, 0) else InvalidDate
  {
  }

  /** Years as `Date.UTC` reads them: a negative year is kept, a two-digit one moves to the 1900s, a far one is invalid. */
  lemma ParseDateYears(s: string, year: int)
    requires DateParts(s) == (Some(1), Some(1), Some(year))
    ensures ParseDateModelled(s)
    ensures year == -5 ==> ParseDate(s) == DateAt(CalDate(-5, 1, 1), 0)
    ensures year == 99 ==> ParseDate(s) == DateAt(CalDate(1999, 1, 1), 0)
    ensures year == 300000 ==> ParseDate(s) == InvalidDate
    ensures year == -271821 ==> ParseDate(s) == InvalidDate
  {
    ParseDateOfParts(s, 1, 1, year);
  }

  /** Text whose parts name a date with a four-digit year parses to that date at midnight. */
  lemma FourDigitYearParse(s: string, d: Day)
    requires 1000 <= d.year <= 9999
    requires DateParts(s) == (Some(d.day), Some(d.month), Some(d.year))
    ensures ParseDateModelled(s) && ParseDate(s) == DateAt(d, 0)
  {
    FourDigitYearInRange(d);
    ParseDateOfParts(s, d.day, d.month, d.year);
  }

  /** Every date with a four-digit year is in the range of a `Date`. */
  lemma FourDigitYearInRange(d: CalDate)
    requires ValidDate(d) && 1000 <= d.year <= 9999
    ensures InDateRange(d)
  {
  }

  /** `formatDate(date)`: it throws on anything but a valid `Date`. */
  function FormatDate(v: JsValue): (r: Result<string>)
    ensures r.Ok? <==> v.DateAt?
    ensures r.Err? ==> r.message == "Invalid date object"
  {
    match v
    case DateAt(d, _) =>
      Ok(IntToString(d.year) + "-" + Pad2(UtcMonthIndex(d) + 1) + "-" + Pad2(d.day))
    case _ => Err("Invalid date object")
  }

  /** What `formatDate` prints for an instant: its year, month and day, the time of day left out. */
  lemma FormatDateOf(d: Day, ms: nat)
    ensures FormatDate(DateAt(d, ms)) == Ok(IntToString(d.year) + "-" + Pad2(d.month) + "-" + Pad2(d.day))
  {
  }

  /** The fields of `y-mm-dd`, read back from the end of the text. */
  lemma DashedFields(y: string, mm: string, dd: string)
    requires |mm| == 2 && |dd| == 2
    ensures var s := y + "-" + mm + "-" + dd;
      |s| >= 6 && s[|s| - 6] == '-' && s[|s| - 3] == '-'
      && s[..|s| - 6] == y && s[|s| - 5..|s| - 3] == mm && s[|s| - 2..] == dd
  {
  }

  /** The printed date has a two-digit month and day that read back as the date's own; the time of day plays no part. */
  lemma FormatDateFields(d: Day, ms: nat)
    ensures var s := FormatDate(DateAt(d, ms)).value;
      |s| >= 6 && s[|s| - 6] == '-' && s[|s| - 3] == '-'
      && s[..|s| - 6] == IntToString(d.year)
      && AllDigits(s[|s| - 5..|s| - 3]) && DigitsValue(s[|s| - 5..|s| - 3]) == d.month
      && AllDigits(s[|s| - 2..]) && DigitsValue(s[|s| - 2..]) == d.day
    ensures FormatDate(DateAt(d, ms)) == FormatDate(DateAt(d, 0))
  {
    FormatDateOf(d, ms);
    FormatDateOf(d, 0);
    DashedFields(IntToString(d.year), Pad2(d.month), Pad2(d.day));
  }

  lemma DmyParts(s: string)
    requires DmyShape(s)
    ensures Split(s, '/') == [s[..2], s[3..5], s[6..]]
    ensures DateParts(s) == (Some(DigitsValue(s[..2])), Some(DigitsValue(s[3..5])), Some(DigitsValue(s[6..])))
  {
    var parts := [s[..2], s[3..5], s[6..]];
    assert parts[1..][1..] == [s[6..]];
    assert Join(parts[1..], '/') == s[3..5] + "/" + s[6..];
    assert s == Join(parts, '/');
    SplitJoin(parts, '/');
    ParseIntOfDigits(s[..2]);
    ParseIntOfDigits(s[3..5]);
    ParseIntOfDigits(s[6..]);
  }

  /**
   * Round trip: a `DD/MM/YYYY` text naming a real date whose year has four
   * digits without a leading zero prints back as `YYYY-MM-DD`.
   */
  lemma ParseThenFormat(s: string)
    requires DmyShape(s) && ValidDate(DmyFields(s)) && s[6] != '0'
    ensures ParseDateModelled(s)
    ensures FormatDate(ParseDate(s)) == Ok(s[6..] + "-" + s[3..5] + "-" + s[..2])
  {
    DmyParts(s);
    var c := DmyFields(s);
    YearPrintsBack(s[6..]);
    Pad2PrintsBack(s[3..5]);
    Pad2PrintsBack(s[..2]);
    FourDigitYearInRange(c);
    ParseDateOfParts(s, c.day, c.month, c.year);
    FormatDateOf(c, 0);
  }

  /** A four-digit year without a leading zero prints back as itself. */
  lemma YearPrintsBack(g: string)
    requires |g| == 4 && AllDigits(g) && g[0] != '0'
    ensures 1000 <= DigitsValue(g) < 10000 && IntToString(DigitsValue(g)) == g
  {
    DigitsValueNoLeadingZero(g);
    DigitsBelowPow10(g);
    assert Pow10(3) == 1000 && Pow10(4) == 10000;
    NatToStringOfDigits(g);
  }

  /** A two-digit group prints back as itself. */
  lemma Pad2PrintsBack(g: string)
    requires |g| == 2 && AllDigits(g)
    ensures Pad2(DigitsValue(g)) == g
  {
    PaddedDigitsRoundTrip(g);
  }

  /** `DD/MM/YYYY` text for a date with a four-digit year. */
  function DmyText(d: Day): (s: string)
    requires 1000 <= d.year <= 9999
  {
    Pad2(d.day) + "/" + Pad2(d.month) + "/" + NatToString(d.year)
  }

  /** Round trip the other way: parsing the `DD/MM/YYYY` text of a date gives that date at midnight. */
  lemma FormatThenParse(d: Day)
    requires 1000 <= d.year <= 9999
    ensures ParseDateModelled(DmyText(d))
    ensures ParseDate(DmyText(d)) == DateAt(d, 0)
  {
    assert Pow10(3) == 1000 && Pow10(4) == 10000;
    NatToStringValue(d.year);
    NatToStringLengthExact(d.year, 4);
    var dd, mm, y := Pad2(d.day), Pad2(d.month), NatToString(d.year);
    SlashedParts(dd, mm, y);
    var s := dd + "/" + mm + "/" + y;
    assert s == DmyText(d);
    DmyParts(s);
    assert DmyFields(s) == d;
    FourDigitYearParse(s, d);
  }
}
