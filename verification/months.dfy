/**
 * Calendar months as the exporter labels them: "YYYY-MM" strings, the month
 * before a given one, the strict "YYYY-MM-DD" date layout, and the month tag
 * ("current", "previous" or "") that every monthly gauge entry carries.
 */
module Months {
  import opened Wrappers
  import opened Numbers

  /** A calendar month; the clock's "now" is reduced to one of these. */
  datatype YearMonth = YearMonth(year: int, month: int)

  /** A month whose "YYYY-MM" form and whose predecessor's form both have four year digits. */
  predicate ValidNow(n: YearMonth) {
    1 <= n.year <= 9999 && 1 <= n.month <= 12
  }

  /** A month that "2006-01" formats with exactly four year digits. */
  predicate Formattable(n: YearMonth) {
    0 <= n.year <= 9999 && 1 <= n.month <= 12
  }

  /** The calendar month before `n`: January steps back to December of the year before. */
  function Previous(n: YearMonth): (p: YearMonth)
    requires ValidNow(n)
    ensures Formattable(p) && p != n
    ensures n.month > 1 ==> p == YearMonth(n.year, n.month - 1)
    ensures n.month == 1 ==> p == YearMonth(n.year - 1, 12)
  {
    if n.month == 1 then YearMonth(n.year - 1, 12) else YearMonth(n.year, n.month - 1)
  }

  /** The calendar month after `n`. */
  function Next(n: YearMonth): (r: YearMonth)
    requires Formattable(n)
  {
    if n.month == 12 then YearMonth(n.year + 1, 1) else YearMonth(n.year, n.month + 1)
  }

  /** Previous and Next undo each other. */
  lemma {:induction false} PreviousNext(n: YearMonth)
    requires ValidNow(n)
    ensures Next(Previous(n)) == n
    ensures n.year < 9999 || n.month < 12 ==> ValidNow(Next(n)) && Previous(Next(n)) == n
  {
  }

  /** `width` decimal digits of n, most significant first, with leading zeros. */
  function Digits(n: nat, width: nat): (s: string)
    ensures |s| == width && AllDigits(s)
  {
    if width == 0 then [] else Digits(n / 10, width - 1) + [DigitChar(n % 10)]
  }

  /** The fixed-width digit string reads back as the number, when it fits. */
  lemma {:induction false} DigitsValueOfDigits(n: nat, width: nat)
    requires n < Pow10(width)
    ensures DigitsValue(Digits(n, width)) == n
  {
    if width > 0 {
      var s := Digits(n, width);
      assert s[..|s| - 1] == Digits(n / 10, width - 1);
      DivTen(n, Pow10(width - 1));
      DigitsValueOfDigits(n / 10, width - 1);
    }
  }

  lemma {:induction false} DivTen(n: nat, p: nat)
    requires n < 10 * p
    ensures n / 10 < p
  {
  }

  /** A fixed-width digit string is the digit string of its own value. */
  lemma {:induction false} DigitsOfDigitsValue(s: string)
    requires AllDigits(s)
    ensures DigitsValue(s) < Pow10(|s|)
    ensures Digits(DigitsValue(s), |s|) == s
  {
    if s != [] {
      var t := s[..|s| - 1];
      DigitsOfDigitsValue(t);
      var v := DigitsValue(s);
      assert v == DigitsValue(t) * 10 + DigitValue(s[|s| - 1]);
      assert v / 10 == DigitsValue(t) && v % 10 == DigitValue(s[|s| - 1]);
      assert s == t + [s[|s| - 1]];
    }
  }

  /** time.Time.Format with the layout "2006-01". */
  function FormatYearMonth(n: YearMonth): (s: string)
    requires Formattable(n)
    ensures |s| == 7 && s[4] == '-'
  {
    Digits(n.year, 4) + ['-'] + Digits(n.month, 2)
  }

  /** Distinct months have distinct labels. */
  lemma {:induction false} FormatYearMonthInjective(a: YearMonth, b: YearMonth)
    requires Formattable(a) && Formattable(b)
    requires FormatYearMonth(a) == FormatYearMonth(b)
    ensures a == b
  {
    var s := FormatYearMonth(a);
    assert s[..4] == Digits(a.year, 4) == Digits(b.year, 4);
    assert s[5..] == Digits(a.month, 2) == Digits(b.month, 2);
    DigitsValueOfDigits(a.year, 4);
    DigitsValueOfDigits(b.year, 4);
    DigitsValueOfDigits(a.month, 2);
    DigitsValueOfDigits(b.month, 2);
  }

  /**
   * The tag a month label gets relative to the current and previous months,
   * which the caller computes once per collection run.
   */
  function TagFor(month: string, current: string, previous: string): string {
    if month == current then "current" else if month == previous then "previous" else ""
  }

  /** The month tag relative to the clock month `now`. */
  function MonthTag(month: string, now: YearMonth): (tag: string)
    requires ValidNow(now)
    ensures tag == "current" <==> month == FormatYearMonth(now)
    ensures tag == "previous" <==> month == FormatYearMonth(Previous(now))
    ensures tag == "" <==> month != FormatYearMonth(now) && month != FormatYearMonth(Previous(now))
  {
    var current := FormatYearMonth(now);
    var previous := FormatYearMonth(Previous(now));
    assert current != previous by {
      if current == previous {
        FormatYearMonthInjective(now, Previous(now));
      }
    }
    TagFor(month, current, previous)
  }

  /** A calendar date. */
  datatype Date = Date(year: int, month: int, day: int)

  predicate IsLeapYear(y: int) {
    y % 4 == 0 && (y % 100 != 0 || y % 400 == 0)
  }

  /** Number of days in a month of the proleptic Gregorian calendar. */
  function DaysIn(month: int, year: int): (d: int)
    requires 1 <= month <= 12
    ensures 28 <= d <= 31
  {
    if month == 2 then (if IsLeapYear(year) then 29 else 28)
    else if month == 4 || month == 6 || month == 9 || month == 11 then 30
    else 31
  }

  /** A date that "2006-01-02" both accepts and prints back. */
  predicate ValidDate(d: Date) {
    0 <= d.year <= 9999 && 1 <= d.month <= 12 && 1 <= d.day <= DaysIn(d.month, d.year)
  }

  /** The digits-and-dashes shape of "YYYY-MM-DD". */
  predicate DateShape(s: string) {
    |s| == 10 && s[4] == '-' && s[7] == '-'
    && AllDigits(s[..4]) && AllDigits(s[5..7]) && AllDigits(s[8..])
  }

  /**
   * time.Parse with the layout "2006-01-02": exactly four year digits, two
   * month digits and two day digits, dashes between, nothing after, and a
   * month and day that exist in that year.
   */
  function ParseDate(s: string): (r: Option<Date>)
    ensures r.Some? <==> DateShape(s) && ValidDate(Date(DigitsValue(s[..4]), DigitsValue(s[5..7]), DigitsValue(s[8..])))
    ensures r.Some? ==> ValidDate(r.value)
  {
    if DateShape(s) then
      var d := Date(DigitsValue(s[..4]), DigitsValue(s[5..7]), DigitsValue(s[8..]));
      if ValidDate(d) then Some(d) else None
    else
      None
  }

  /** time.Time.Format with the layout "2006-01-02". */
  function FormatDate(d: Date): (s: string)
    requires ValidDate(d)
    ensures DateShape(s)
  {
    var s := Digits(d.year, 4) + ['-'] + Digits(d.month, 2) + ['-'] + Digits(d.day, 2);
    assert s[..4] == Digits(d.year, 4);
    assert s[5..7] == Digits(d.month, 2);
    assert s[8..] == Digits(d.day, 2);
    s
  }

  /** Every valid date prints to a string that parses back to it. */
  lemma {:induction false} ParseFormatDate(d: Date)
    requires ValidDate(d)
    ensures ParseDate(FormatDate(d)) == Some(d)
  {
    var s := FormatDate(d);
    assert s[..4] == Digits(d.year, 4);
    assert s[5..7] == Digits(d.month, 2);
    assert s[8..] == Digits(d.day, 2);
    DigitsValueOfDigits(d.year, 4);
    DigitsValueOfDigits(d.month, 2);
    DigitsValueOfDigits(d.day, 2);
  }

  /** Every accepted string is the printed form of the date it parses to. */
  lemma {:induction false} FormatParseDate(s: string)
    requires ParseDate(s).Some?
    ensures FormatDate(ParseDate(s).value) == s
  {
    DigitsOfDigitsValue(s[..4]);
    DigitsOfDigitsValue(s[5..7]);
    DigitsOfDigitsValue(s[8..]);
    assert s == s[..4] + ['-'] + s[5..7] + ['-'] + s[8..];
  }

  /** The "2006-01" form of a parsed date is the first seven characters of its text. */
  lemma {:induction false} MonthOfParsedDate(s: string)
    requires ParseDate(s).Some?
    ensures FormatYearMonth(YearMonth(ParseDate(s).value.year, ParseDate(s).value.month)) == s[..7]
  {
    DigitsOfDigitsValue(s[..4]);
    DigitsOfDigitsValue(s[5..7]);
    assert s[..7] == s[..4] + ['-'] + s[5..7];
  }

  /** With the clock at April 2024, March is "previous" and January gets no tag. */
  lemma {:induction false} MonthTagExample()
    ensures MonthTag("2024-04", YearMonth(2024, 4)) == "current"
    ensures MonthTag("2024-03", YearMonth(2024, 4)) == "previous"
    ensures MonthTag("2024-01", YearMonth(2024, 4)) == ""
    ensures MonthTag("2023-12", YearMonth(2024, 1)) == "previous"
  {
    FormatApril();
    FormatMarch();
    FormatDecember();
  }

  lemma {:induction false} FormatApril()
    ensures FormatYearMonth(YearMonth(2024, 4)) == "2024-04"
  {
  }

  lemma {:induction false} FormatMarch()
    ensures FormatYearMonth(YearMonth(2024, 3)) == "2024-03"
  {
  }

  lemma {:induction false} FormatDecember()
    ensures FormatYearMonth(YearMonth(2023, 12)) == "2023-12"
  {
  }
}
