/** Local calendar days: the Gregorian month arithmetic of `localday.py`, over unbounded years.

    The month lengths and the leap-year rule are those of section 5.7 and Appendix C of RFC 3339.
    A date is a (year, month, day) triple; its ordinal is the number every other module counts in.
*/
module Calendar {
  datatype Date = Date(year: int, month: int, day: int)

  /** A day as its ordinal: 1 is 0001-01-01. */
  type Day = int

  predicate IsLeapYear(year: int) {
    year % 4 == 0 && (year % 100 != 0 || year % 400 == 0)
  }

  function DaysInMonth(year: int, month: int): (n: int)
    requires 1 <= month <= 12
    ensures 28 <= n <= 31
  {
    if month == 2 then (if IsLeapYear(year) then 29 else 28)
    else if month in {4, 6, 9, 11} then 30
    else 31
  }

  predicate IsDate(d: Date) {
    1 <= d.month <= 12 && 1 <= d.day <= DaysInMonth(d.year, d.month)
  }

  /** Whole months since month 1 of year 0: what month arithmetic moves along. */
  function MonthIndex(d: Date): int {
    d.year * 12 + (d.month - 1)
  }

  function MonthLength(k: int): (n: int)
    ensures 28 <= n <= 31
  {
    DaysInMonth(k / 12, k % 12 + 1)
  }

  function DaysBeforeYear(year: int): int {
    365 * (year - 1) + (year - 1) / 4 - (year - 1) / 100 + (year - 1) / 400
  }

  /** The days of a year before the month, in a common year and with the leap day. */
  function DaysBeforeMonth(year: int, month: int): int
    requires 1 <= month <= 12
  {
    [0, 31, 59, 90, 120, 151, 181, 212, 243, 273, 304, 334][month - 1]
    + (if month > 2 && IsLeapYear(year) then 1 else 0)
  }

  /** The ordinal of the first day of month `k`, counting month by month from month 12, January of
      year 1. `MonthStartInClosedForm` gives it from the year and month alone. */
  function MonthStart(k: int): Day
    decreases if k >= 12 then k else 24 - k
  {
    if k == 12 then 1
    else if k > 12 then MonthStart(k - 1) + MonthLength(k - 1)
    else MonthStart(k + 1) - MonthLength(k)
  }

  function Ordinal(d: Date): Day
    requires IsDate(d)
  {
    MonthStart(MonthIndex(d)) + d.day - 1
  }

  /** Calendar order, as dates compare: year, then month, then day. */
  predicate Before(d: Date, e: Date) {
    d.year < e.year
    || (d.year == e.year && (d.month < e.month || (d.month == e.month && d.day < e.day)))
  }

  function NextDay(d: Date): (e: Date)
    requires IsDate(d)
    ensures IsDate(e)
  {
    if d.day < DaysInMonth(d.year, d.month) then d.(day := d.day + 1)
    else if d.month < 12 then Date(d.year, d.month + 1, 1)
    else Date(d.year + 1, 1, 1)
  }

  function PreviousDay(d: Date): (e: Date)
    requires IsDate(d)
    ensures IsDate(e)
  {
    if d.day > 1 then d.(day := d.day - 1)
    else if d.month > 1 then Date(d.year, d.month - 1, DaysInMonth(d.year, d.month - 1))
    else Date(d.year - 1, 12, 31)
  }

  /** The date with ordinal `n`, reached one day at a time from 0001-01-01. */
  function FromOrdinal(n: Day): (d: Date)
    ensures IsDate(d)
    decreases if n >= 1 then n else 2 - n
  {
    if n == 1 then Date(1, 1, 1)
    else if n > 1 then NextDay(FromOrdinal(n - 1))
    else PreviousDay(FromOrdinal(n + 1))
  }

  function LastDayOfMonth(year: int, month: int): (d: Date)
    requires 1 <= month <= 12
    ensures IsDate(d)
  {
    Date(year, month, DaysInMonth(year, month))
  }

  /** `add_months`: the target month by floor division, the day clamped to it. */
  function AddMonths(d: Date, months: int, clampToMonthEnd: bool): (e: Date)
    requires IsDate(d)
    ensures IsDate(e)
  {
    var total := d.year * 12 + (d.month - 1) + months;
    var year, month := total / 12, total % 12 + 1;
    if clampToMonthEnd then LastDayOfMonth(year, month)
    else
      var last := DaysInMonth(year, month);
      Date(year, month, if d.day < last then d.day else last)
  }

  // ---------------------------------------------------------------- months tile the days

  lemma YearLength(year: int)
    ensures DaysBeforeYear(year + 1) - DaysBeforeYear(year) == (if IsLeapYear(year) then 366 else 365)
  {
    QuotientStep(year - 1, 4);
    QuotientStep(year - 1, 100);
    QuotientStep(year - 1, 400);
    CenturiesAreLeapCandidates(year);
  }

  lemma CenturiesAreLeapCandidates(year: int)
    ensures year % 400 == 0 ==> year % 100 == 0
    ensures year % 100 == 0 ==> year % 4 == 0
  {
    HundredsOf(4 * (year / 400));
    FoursOf(25 * (year / 100));
  }

  lemma HundredsOf(n: int)
    ensures (100 * n) % 100 == 0
  {}

  lemma FoursOf(n: int)
    ensures (4 * n) % 4 == 0
  {}

  lemma QuotientStep(n: int, divisor: int)
    requires divisor in {4, 100, 400}
    ensures (n + 1) / divisor - n / divisor == (if (n + 1) % divisor == 0 then 1 else 0)
  {}

  /** The lengths of the months, and February's by the rule of the Gregorian calendar. */
  lemma MonthLengths(year: int, month: int)
    requires 1 <= month <= 12
    ensures DaysInMonth(year, month)
            == if month == 2 && year % 4 == 0 && (year % 100 != 0 || year % 400 == 0) then 29
               else [31, 28, 31, 30, 31, 30, 31, 31, 30, 31, 30, 31][month - 1]
    ensures month < 12 ==> DaysBeforeMonth(year, month + 1) == DaysBeforeMonth(year, month) + DaysInMonth(year, month)
    ensures month == 12 ==> DaysBeforeMonth(year, month) + 31 == (if IsLeapYear(year) then 366 else 365)
  {
    assert month in {1, 2, 3, 4, 5, 6, 7, 8, 9, 10, 11, 12};
  }

  /** Each month starts the day after the previous one ends, through every year end. */
  lemma MonthsAbut(k: int)
    ensures MonthStart(k + 1) == MonthStart(k) + MonthLength(k)
  {}

  lemma {:induction false} MonthStartIs(k: int)
    ensures MonthStart(k) == DaysBeforeYear(k / 12) + DaysBeforeMonth(k / 12, k % 12 + 1) + 1
    decreases if k >= 12 then k else 24 - k
  {
    hide DaysBeforeMonth, DaysBeforeYear;
    if k > 12 {
      MonthStartIs(k - 1);
      ClosedFormAdvances(k - 1);
    } else if k < 12 {
      MonthStartIs(k + 1);
      ClosedFormAdvances(k);
    } else {
      FirstMonthStarts();
    }
  }

  lemma FirstMonthStarts()
    ensures DaysBeforeYear(1) + DaysBeforeMonth(1, 1) == 0
  {}

  lemma ClosedFormAdvances(k: int)
    ensures DaysBeforeYear((k + 1) / 12) + DaysBeforeMonth((k + 1) / 12, (k + 1) % 12 + 1)
            == DaysBeforeYear(k / 12) + DaysBeforeMonth(k / 12, k % 12 + 1) + MonthLength(k)
  {
    hide DaysInMonth, DaysBeforeYear;
    var year, month := k / 12, k % 12 + 1;
    MonthLengths(year, month);
    if month < 12 {
      assert (k + 1) / 12 == year && (k + 1) % 12 + 1 == month + 1;
    } else {
      assert (k + 1) / 12 == year + 1 && (k + 1) % 12 == 0;
      YearLength(year);
      MonthLengths(year, 12);
      DecemberIs31(year);
    }
  }

  lemma DecemberIs31(year: int)
    ensures DaysInMonth(year, 12) == 31 && DaysBeforeMonth(year + 1, 1) == 0
  {}

  /** The month's first day from the year and month alone, in figures: 365 a year, the leap days of the years before,
      the days of a common year before the month, and the leap day once February is over. */
  lemma MonthStartInClosedForm(k: int)
    ensures var year, month := k / 12, k % 12 + 1;
            MonthStart(k)
            == 1 + 365 * (year - 1) + (year - 1) / 4 - (year - 1) / 100 + (year - 1) / 400
               + [0, 31, 59, 90, 120, 151, 181, 212, 243, 273, 304, 334][month - 1]
               + (if month > 2 && year % 4 == 0 && (year % 100 != 0 || year % 400 == 0) then 1 else 0)
  {
    MonthStartIs(k);
  }

  /** A date is a day that its month has, and its ordinal is in the same figures. */
  lemma OrdinalInClosedForm(d: Date)
    requires 1 <= d.month <= 12
    ensures var leap := d.year % 4 == 0 && (d.year % 100 != 0 || d.year % 400 == 0);
            var last := [31, if leap then 29 else 28, 31, 30, 31, 30, 31, 31, 30, 31, 30, 31][d.month - 1];
            (IsDate(d) <==> 1 <= d.day <= last)
            && (IsDate(d) ==>
                  Ordinal(d)
                  == 365 * (d.year - 1) + (d.year - 1) / 4 - (d.year - 1) / 100 + (d.year - 1) / 400
                     + [0, 31, 59, 90, 120, 151, 181, 212, 243, 273, 304, 334][d.month - 1]
                     + (if d.month > 2 && leap then 1 else 0) + d.day)
  {
    hide MonthStart;
    assert d.month in {1, 2, 3, 4, 5, 6, 7, 8, 9, 10, 11, 12};
    MonthLengths(d.year, d.month);
    MonthIndexOf(d);
    MonthStartInClosedForm(MonthIndex(d));
  }

  lemma {:induction false} MonthsAdvance(j: int, k: int)
    requires j < k
    ensures MonthStart(j) + MonthLength(j) <= MonthStart(k)
    decreases k - j
  {
    MonthsAbut(j);
    if j + 1 < k {
      MonthsAdvance(j + 1, k);
    }
  }

  // ---------------------------------------------------------------- dates and ordinals

  lemma MonthIndexOf(d: Date)
    requires 1 <= d.month <= 12
    ensures MonthIndex(d) / 12 == d.year && MonthIndex(d) % 12 + 1 == d.month
  {}

  /** Dates compare exactly as their ordinals do. */
  lemma OrdinalOrder(d: Date, e: Date)
    requires IsDate(d) && IsDate(e)
    ensures Before(d, e) <==> Ordinal(d) < Ordinal(e)
    ensures d == e <==> Ordinal(d) == Ordinal(e)
  {
    hide IsLeapYear, MonthStart;
    MonthIndexOf(d);
    MonthIndexOf(e);
    var j, k := MonthIndex(d), MonthIndex(e);
    if j < k {
      MonthsAdvance(j, k);
    } else if k < j {
      MonthsAdvance(k, j);
    }
  }

  lemma NextDayIsOneLater(d: Date)
    requires IsDate(d)
    ensures Ordinal(NextDay(d)) == Ordinal(d) + 1
    ensures PreviousDay(NextDay(d)) == d
  {
    hide IsLeapYear, MonthStart;
    MonthIndexOf(d);
    MonthsAbut(MonthIndex(d));
  }

  lemma PreviousDayIsOneEarlier(d: Date)
    requires IsDate(d)
    ensures Ordinal(PreviousDay(d)) == Ordinal(d) - 1
  {
    hide IsLeapYear, MonthStart;
    var e := PreviousDay(d);
    MonthIndexOf(e);
    MonthIndexOf(d);
    MonthsAbut(MonthIndex(e));
  }

  lemma FirstOrdinal()
    ensures Ordinal(Date(1, 1, 1)) == 1
  {
    MonthIndexOf(Date(1, 1, 1));
  }

  /** Ordinals and dates are one another's inverses, for every year. */
  lemma {:induction false} OrdinalRoundTrip(n: Day)
    ensures Ordinal(FromOrdinal(n)) == n
    decreases if n >= 1 then n else 2 - n
  {
    if n > 1 {
      OrdinalRoundTrip(n - 1);
      NextDayIsOneLater(FromOrdinal(n - 1));
    } else if n < 1 {
      OrdinalRoundTrip(n + 1);
      PreviousDayIsOneEarlier(FromOrdinal(n + 1));
    } else {
      FirstOrdinal();
    }
  }

  lemma DateRoundTrip(d: Date)
    requires IsDate(d)
    ensures FromOrdinal(Ordinal(d)) == d
  {
    OrdinalRoundTrip(Ordinal(d));
    OrdinalOrder(FromOrdinal(Ordinal(d)), d);
  }

  // ---------------------------------------------------------------- month arithmetic

  /** Month-end arithmetic never sticks at a short month: two clamped moves are one, so a garage
      billing on the last day reaches 31 March from 31 January by way of 28 or 29 February. */
  lemma ClampedMonthsCompose(d: Date, a: int, b: int)
    requires IsDate(d)
    ensures AddMonths(AddMonths(d, a, true), b, true) == AddMonths(d, a + b, true)
    ensures AddMonths(AddMonths(d, a, true), -a, true) == LastDayOfMonth(d.year, d.month)
    ensures MonthIndex(AddMonths(d, a, true)) == d.year * 12 + d.month - 1 + a
  {
    hide IsLeapYear;
    MonthIndexOf(AddMonths(d, a, true));
  }

  /** Without the clamp the day is pulled back only where the month is short. Moving there and back
      returns the same date exactly when the day exists in the month passed through. */
  lemma UnclampedMonthsReturn(d: Date, a: int)
    requires IsDate(d)
    ensures AddMonths(AddMonths(d, a, false), -a, false) == d
            <==> d.day <= MonthLength(MonthIndex(d) + a)
    ensures MonthIndex(AddMonths(d, a, false)) == d.year * 12 + d.month - 1 + a
  {
    hide IsLeapYear;
    MonthIndexOf(d);
    MonthIndexOf(AddMonths(d, a, false));
  }
}
