/**
 * Calendar dates as the task handlers use them: the strict `DD/MM/YYYY`
 * check of `validateDueDate`, the canonical `YYYY-MM-DD` text the handlers
 * store, Mongoose's cast of that text back to a date, and the next-day bound
 * of the list filter's due-date window. Dates carry no time of day, because
 * every due date the handlers store is a UTC midnight.
 */
module Calendar {
  import opened Wrappers
  import opened Text

  /** A proleptic Gregorian date; `month` runs from 1 to 12. */
  datatype CalDate = CalDate(year: int, month: int, day: int)

  predicate IsLeapYear(y: int) {
    y % 4 == 0 && (y % 100 != 0 || y % 400 == 0)
  }

  function DaysInMonth(y: int, m: int): int {
    if m == 2 then (if IsLeapYear(y) then 29 else 28)
    else if m == 4 || m == 6 || m == 9 || m == 11 then 30
    else 31
  }

  predicate ValidDate(d: CalDate) {
    1 <= d.month <= 12 && 1 <= d.day <= DaysInMonth(d.year, d.month)
  }

  /** A real calendar date (the proleptic Gregorian calendar, any year). */
  type Day = d: CalDate | ValidDate(d) witness CalDate(1970, 1, 1)

  /** A number that orders valid dates chronologically. */
  function Ordinal(d: CalDate): int {
    d.year * 10000 + d.month * 100 + d.day
  }

  lemma OrdinalIsChronological(a: CalDate, b: CalDate)
    requires ValidDate(a) && ValidDate(b)
    ensures Ordinal(a) < Ordinal(b) <==>
      a.year < b.year
      || (a.year == b.year && a.month < b.month)
      || (a.year == b.year && a.month == b.month && a.day < b.day)
    ensures Ordinal(a) == Ordinal(b) <==> a == b
  {
  }

  /** The calendar day after `d`. */
  function NextDay(d: CalDate): (r: CalDate)
    requires ValidDate(d)
    ensures ValidDate(r) && Ordinal(d) < Ordinal(r)
  {
    if d.day < DaysInMonth(d.year, d.month) then CalDate(d.year, d.month, d.day + 1)
    else if d.month < 12 then CalDate(d.year, d.month + 1, 1)
    else CalDate(d.year + 1, 1, 1)
  }

  /** No valid date lies strictly between a date and the next one. */
  lemma NextDayIsNext(d: CalDate, e: CalDate)
    requires ValidDate(d) && ValidDate(e)
    ensures !(Ordinal(d) < Ordinal(e) < Ordinal(NextDay(d)))
  {
    OrdinalIsChronological(d, e);
    OrdinalIsChronological(e, NextDay(d));
  }

  /** The date `DD/MM/YYYY` names, without checking that the date exists. */
  function DmyFields(s: string): (d: CalDate)
    requires |s| == 10 && AllDigits(s[..2]) && AllDigits(s[3..5]) && AllDigits(s[6..])
  {
    CalDate(DigitsValue(s[6..]), DigitsValue(s[3..5]), DigitsValue(s[..2]))
  }

  predicate DmyShape(s: string) {
    |s| == 10 && s[2] == '/' && s[5] == '/'
    && AllDigits(s[..2]) && AllDigits(s[3..5]) && AllDigits(s[6..])
  }

  /** Where the digit groups and slashes of `DD/MM/YYYY` sit. */
  lemma SlashedParts(dd: string, mm: string, y: string)
    requires |dd| == 2 && |mm| == 2 && |y| == 4
    ensures var s := dd + "/" + mm + "/" + y;
      |s| == 10 && s[2] == '/' && s[5] == '/' && s[..2] == dd && s[3..5] == mm && s[6..] == y
  {
    var s := dd + "/" + mm + "/" + y;
    assert s[..2] == dd && s[3..5] == mm && s[6..] == y;
  }

  /**
   * `moment(s, 'DD/MM/YYYY', true)`: exactly two digits, a slash, two digits,
   * a slash and four digits, naming a date that exists.
   */
  function StrictDmy(s: string): (r: Option<CalDate>)
    ensures r.Some? <==> DmyShape(s) && ValidDate(DmyFields(s))
    ensures r.Some? ==> ValidDate(r.value) && 0 <= r.value.year <= 9999
    ensures r.Some? ==> r.value.day == DigitsValue(s[..2]) && r.value.month == DigitsValue(s[3..5])
  {
    if DmyShape(s) && ValidDate(DmyFields(s)) then
      assert Pow10(4) == 10000;
      assert DigitsValue(s[6..]) < Pow10(4) by { DigitsBelowPow10(s[6..]); }
      Some(DmyFields(s))
    else None
  }

  lemma {:induction false} DigitsBelowPow10(s: string)
    requires AllDigits(s)
    ensures DigitsValue(s) < Pow10(|s|)
  {
    if s != [] {
      DigitsBelowPow10(s[..|s| - 1]);
    }
  }

  /** `validateDueDate`: the (possibly absent) body field is a strict `DD/MM/YYYY` date. */
  predicate ValidDueDate(s: Option<string>) {
    s.Some? && StrictDmy(s.value).Some?
  }

  /** `moment(...).format('YYYY-MM-DD')`: the year zero-padded to four digits. */
  function IsoDay(d: CalDate): (s: string)
    requires ValidDate(d) && 0 <= d.year <= 9999
    ensures |s| == 10 && s[4] == '-' && s[7] == '-'
  {
    assert Pow10(4) == 10000 && Pow10(2) == 100;
    var y, m, dd := Padded(d.year, 4), Padded(d.month, 2), Padded(d.day, 2);
    DashedParts(y, m, dd);
    y + "-" + m + "-" + dd
  }

  /** Where the digit groups and dashes of `YYYY-MM-DD` sit. */
  lemma DashedParts(y: string, m: string, dd: string)
    requires |y| == 4 && |m| == 2 && |dd| == 2
    ensures var s := y + "-" + m + "-" + dd;
      |s| == 10 && s[4] == '-' && s[7] == '-' && s[..4] == y && s[5..7] == m && s[8..] == dd
  {
    var s := y + "-" + m + "-" + dd;
    assert s[..4] == y && s[5..7] == m && s[8..] == dd;
  }

  /** Reformatting a strict `DD/MM/YYYY` date only rearranges its digit groups. */
  lemma ReformatRearranges(s: string)
    requires StrictDmy(s).Some?
    ensures IsoDay(StrictDmy(s).value) == s[6..] + "-" + s[3..5] + "-" + s[..2]
  {
    PaddedDigitsRoundTrip(s[6..]);
    PaddedDigitsRoundTrip(s[3..5]);
    PaddedDigitsRoundTrip(s[..2]);
  }

  /** Mongoose's cast of a `YYYY-MM-DD` text to a date (other texts do not cast). */
  function CastIsoDay(s: string): (r: Option<CalDate>)
    ensures r.Some? ==> ValidDate(r.value) && 0 <= r.value.year <= 9999
  {
    if |s| == 10 && s[4] == '-' && s[7] == '-'
       && AllDigits(s[..4]) && AllDigits(s[5..7]) && AllDigits(s[8..])
    then
      var d := CalDate(DigitsValue(s[..4]), DigitsValue(s[5..7]), DigitsValue(s[8..]));
      assert Pow10(4) == 10000;
      assert DigitsValue(s[..4]) < Pow10(4) by { DigitsBelowPow10(s[..4]); }
      if ValidDate(d) then Some(d) else None
    else None
  }

  lemma CastIsoDayOfParts(y: string, m: string, dd: string)
    requires AllDigits(y) && AllDigits(m) && AllDigits(dd)
    requires |y| == 4 && |m| == 2 && |dd| == 2
    ensures var c := CalDate(DigitsValue(y), DigitsValue(m), DigitsValue(dd));
      CastIsoDay(y + "-" + m + "-" + dd) == if ValidDate(c) then Some(c) else None
  {
    DashedParts(y, m, dd);
  }

  /** The stored text of a due date casts back to that date. */
  lemma CastIsoDayRoundTrip(d: CalDate)
    requires ValidDate(d) && 0 <= d.year <= 9999
    ensures CastIsoDay(IsoDay(d)) == Some(d)
  {
    assert Pow10(4) == 10000 && Pow10(2) == 100;
    CastIsoDayOfParts(Padded(d.year, 4), Padded(d.month, 2), Padded(d.day, 2));
  }
}
