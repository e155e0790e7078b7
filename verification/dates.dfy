/** Calendar dates as (year, month, day) triples with the Gregorian leap-year rule,
    the ISO 8601 `YYYY-MM-DD` text form, and the `YYYY-MM` month label. */
module Dates {
  import opened Wrappers
  import opened Text

  datatype Date = Date(year: int, month: int, day: int)

  predicate IsLeapYear(y: int)
  {
    y % 4 == 0 && (y % 100 != 0 || y % 400 == 0)
  }

  function DaysInMonth(y: int, m: int): (n: int)
    requires 1 <= m <= 12
    ensures 28 <= n <= 31
  {
    if m == 2 then (if IsLeapYear(y) then 29 else 28)
    else if m == 4 || m == 6 || m == 9 || m == 11 then 30
    else 31
  }

  predicate ValidDate(d: Date)
  {
    1 <= d.month <= 12 && 1 <= d.day <= DaysInMonth(d.year, d.month)
  }

  /** Chronological order (`<=` on the SQL `date` type). */
  predicate DateLe(a: Date, b: Date)
  {
    a.year < b.year
    || (a.year == b.year && (a.month < b.month || (a.month == b.month && a.day <= b.day)))
  }

  /** `start <= d AND d <= end`, both ends inclusive (SQL `BETWEEN`). */
  predicate InRange(d: Date, start: Date, end: Date)
  {
    DateLe(start, d) && DateLe(d, end)
  }

  /** The first day of the month after (y, m). */
  function NextMonthStart(y: int, m: int): (d: Date)
    requires 1 <= m <= 12
    ensures ValidDate(d)
  {
    if m == 12 then Date(y + 1, 1, 1) else Date(y, m + 1, 1)
  }

  /** The calendar day before `d`. */
  function PrevDay(d: Date): (p: Date)
    requires ValidDate(d)
    ensures ValidDate(p) && DateLe(p, d) && p != d
  {
    if d.day > 1 then Date(d.year, d.month, d.day - 1)
    else if d.month > 1 then Date(d.year, d.month - 1, DaysInMonth(d.year, d.month - 1))
    else Date(d.year - 1, 12, 31)
  }

  /** The dashboard's month range: the first day of (y, m), and "day 0 of the next
      month", which JavaScript's `Date` constructor resolves to the day before it. */
  function MonthRange(y: int, m: int): (r: (Date, Date))
    requires 1 <= m <= 12
    ensures ValidDate(r.0) && ValidDate(r.1) && DateLe(r.0, r.1)
    ensures r.0 == Date(y, m, 1) && r.1 == Date(y, m, DaysInMonth(y, m))
    ensures forall d :: ValidDate(d) ==> (InRange(d, r.0, r.1) <==> d.year == y && d.month == m)
  {
    (Date(y, m, 1), PrevDay(NextMonthStart(y, m)))
  }

  // ------------------------------------------------------------- text forms

  /** A date whose year fits the four-digit ISO form. */
  predicate FourDigitYear(d: Date)
  {
    0 <= d.year <= 9999
  }

  /** `YYYY-MM-DD`, as produced by `toISOString().split("T")[0]`. */
  function FormatIso(d: Date): (s: string)
    requires ValidDate(d) && FourDigitYear(d)
    ensures |s| == 10 && s[4] == '-' && s[7] == '-'
  {
    PadDigits(d.year, 4) + "-" + PadDigits(d.month, 2) + "-" + PadDigits(d.day, 2)
  }

  /** Reads a `YYYY-MM-DD` string; anything else, or a day that does not exist, is `None`. */
  function ParseIso(s: string): (r: Option<Date>)
    ensures r.Some? ==> ValidDate(r.value) && FourDigitYear(r.value)
  {
    if |s| == 10 && s[4] == '-' && s[7] == '-'
       && AllDigits(s[..4]) && AllDigits(s[5..7]) && AllDigits(s[8..])
    then
      var d := Date(DigitsValue(s[..4]), DigitsValue(s[5..7]), DigitsValue(s[8..]));
      DigitsPadRoundTrip(s[..4]);
      assert Pow10(4) == 10000 && Pow10(2) == 100;
      if ValidDate(d) then Some(d) else None
    else None
  }

  lemma IsoRoundTrip(d: Date)
    requires ValidDate(d) && FourDigitYear(d)
    ensures ParseIso(FormatIso(d)) == Some(d)
  {
    var s := FormatIso(d);
    assert Pow10(4) == 10000 && Pow10(2) == 100;
    assert s[..4] == PadDigits(d.year, 4);
    assert s[5..7] == PadDigits(d.month, 2);
    assert s[8..] == PadDigits(d.day, 2);
    PadDigitsRoundTrip(d.year, 4);
    PadDigitsRoundTrip(d.month, 2);
    PadDigitsRoundTrip(d.day, 2);
  }

  /** Every accepted string is the canonical text of the date it denotes. */
  lemma IsoCanonical(s: string)
    requires ParseIso(s).Some?
    ensures FormatIso(ParseIso(s).value) == s
  {
    var y, m, d := s[..4], s[5..7], s[8..];
    assert ParseIso(s).value == Date(DigitsValue(y), DigitsValue(m), DigitsValue(d));
    DigitsPadRoundTrip(y);
    DigitsPadRoundTrip(m);
    DigitsPadRoundTrip(d);
    IsoPieces(s);
  }

  lemma IsoPieces(s: string)
    requires |s| == 10 && s[4] == '-' && s[7] == '-'
    ensures s == s[..4] + "-" + s[5..7] + "-" + s[8..]
  {
  }

  /** `TO_CHAR(date, 'YYYY-MM')`. */
  function MonthLabel(y: int, m: int): (s: string)
    requires 0 <= y <= 9999 && 1 <= m <= 12
    ensures |s| == 7 && s[4] == '-'
  {
    PadDigits(y, 4) + "-" + PadDigits(m, 2)
  }

  /** Distinct months have distinct labels. */
  lemma MonthLabelInjective(y1: int, m1: int, y2: int, m2: int)
    requires 0 <= y1 <= 9999 && 1 <= m1 <= 12 && 0 <= y2 <= 9999 && 1 <= m2 <= 12
    requires MonthLabel(y1, m1) == MonthLabel(y2, m2)
    ensures y1 == y2 && m1 == m2
  {
    var a, b := MonthLabel(y1, m1), MonthLabel(y2, m2);
    assert Pow10(4) == 10000 && Pow10(2) == 100;
    assert a[..4] == PadDigits(y1, 4) && b[..4] == PadDigits(y2, 4);
    assert a[5..] == PadDigits(m1, 2) && b[5..] == PadDigits(m2, 2);
    PadDigitsRoundTrip(y1, 4);
    PadDigitsRoundTrip(y2, 4);
    PadDigitsRoundTrip(m1, 2);
    PadDigitsRoundTrip(m2, 2);
  }

  /** Months numbered consecutively, so that their order is the order of integers. */
  function MonthIndex(y: int, m: int): int
  {
    y * 12 + (m - 1)
  }

  lemma MonthIndexOrder(y1: int, m1: int, y2: int, m2: int)
    requires 1 <= m1 <= 12 && 1 <= m2 <= 12
    ensures MonthIndex(y1, m1) < MonthIndex(y2, m2) <==> y1 < y2 || (y1 == y2 && m1 < m2)
    ensures MonthIndex(y1, m1) == MonthIndex(y2, m2) <==> y1 == y2 && m1 == m2
  {
    if y1 < y2 {
      assert y1 * 12 + 12 <= y2 * 12;
    } else if y2 < y1 {
      assert y2 * 12 + 12 <= y1 * 12;
    }
  }

  /** Sorting by the `YYYY-MM` label is sorting by month. */
  lemma MonthLabelOrder(y1: int, m1: int, y2: int, m2: int)
    requires 0 <= y1 <= 9999 && 1 <= m1 <= 12 && 0 <= y2 <= 9999 && 1 <= m2 <= 12
    ensures LexLess(MonthLabel(y1, m1), MonthLabel(y2, m2)) <==> MonthIndex(y1, m1) < MonthIndex(y2, m2)
  {
    var a, b := PadDigits(y1, 4), PadDigits(y2, 4);
    var c, d := PadDigits(m1, 2), PadDigits(m2, 2);
    assert Pow10(4) == 10000 && Pow10(2) == 100;
    PadDigitsOrder(y1, y2, 4);
    PadDigitsOrder(m1, m2, 2);
    PadDigitsRoundTrip(y1, 4);
    PadDigitsRoundTrip(y2, 4);
    LexLessDashed(a, b, c, d);
    MonthIndexOrder(y1, m1, y2, m2);
  }

  /** Two equal-width fields joined by a dash compare field by field. */
  lemma LexLessDashed(a: string, b: string, c: string, d: string)
    requires |a| == |b|
    ensures LexLess(a + "-" + c, b + "-" + d) <==> LexLess(a, b) || (a == b && LexLess(c, d))
  {
    LexLessAppend(a, b, "-", "-");
    assert !LexLess("-", "-");
    LexLessAppend(a + "-", b + "-", c, d);
    assert a + "-" == b + "-" <==> a == b by {
      if a + "-" == b + "-" {
        assert a == (a + "-")[..|a|] && b == (b + "-")[..|b|];
      }
    }
  }

  /** The month range of the dashboard in text form, as sent to the database. */
  function MonthRangeText(y: int, m: int): (r: (string, string))
    requires 0 <= y <= 9999 && 1 <= m <= 12
    ensures ParseIso(r.0) == Some(MonthRange(y, m).0)
    ensures ParseIso(r.1) == Some(MonthRange(y, m).1)
    ensures r.0[..7] == r.1[..7] == MonthLabel(y, m)
  {
    var (start, end) := MonthRange(y, m);
    IsoRoundTrip(start);
    IsoRoundTrip(end);
    (FormatIso(start), FormatIso(end))
  }

  lemma PadYears()
    ensures PadDigits(2024, 4) == "2024" && PadDigits(2025, 4) == "2025"
  {
    assert PadDigits(2, 1) == "2";
    assert PadDigits(20, 2) == "20";
    assert PadDigits(202, 3) == "202";
  }

  lemma PadFebruaryDays()
    ensures PadDigits(1, 2) == "01" && PadDigits(2, 2) == "02"
    ensures PadDigits(28, 2) == "28" && PadDigits(29, 2) == "29"
  {
    assert PadDigits(0, 1) == "0" && PadDigits(2, 1) == "2";
  }

  lemma FebruaryIso()
    ensures FormatIso(Date(2025, 2, 1)) == "2025-02-01" && FormatIso(Date(2025, 2, 28)) == "2025-02-28"
    ensures FormatIso(Date(2024, 2, 1)) == "2024-02-01" && FormatIso(Date(2024, 2, 29)) == "2024-02-29"
  {
    PadYears();
    PadFebruaryDays();
  }

  /** February of a common year ends on the 28th. */
  lemma FebruaryEndNonLeap()
    ensures MonthRangeText(2025, 2) == ("2025-02-01", "2025-02-28")
  {
    assert !IsLeapYear(2025);
    assert MonthRange(2025, 2) == (Date(2025, 2, 1), Date(2025, 2, 28));
    FebruaryIso();
  }

  /** February of a leap year ends on the 29th. */
  lemma FebruaryEndLeap()
    ensures MonthRangeText(2024, 2) == ("2024-02-01", "2024-02-29")
  {
    assert IsLeapYear(2024);
    assert MonthRange(2024, 2) == (Date(2024, 2, 1), Date(2024, 2, 29));
    FebruaryIso();
  }
}
