/** Billing periods, billable days and proration: `cycle.py`. */
module Cycle {
  import opened Calendar
  import opened Garages
  import opened Agreements
  import opened Options

  /** The days from `startDay` up to but not including `endDay`. */
  datatype Period = Period(startDay: Day, endDay: Day) {
    function Days(): int {
      endDay - startDay
    }

    predicate Contains(day: Day) {
      startDay <= day < endDay
    }
  }

  // ---------------------------------------------------------------- periods

  function PreviousBillingDay(g: Garage, billingDay: Date): (d: Date)
    requires WellFormed(g) && IsDate(billingDay)
    ensures IsDate(d)
  {
    var previous := AddMonths(Date(billingDay.year, billingDay.month, 1), -1, false);
    BillingDayIn(g, previous.year, previous.month)
  }

  function NextBillingDayAfter(g: Garage, billingDay: Date): (d: Date)
    requires WellFormed(g) && IsDate(billingDay)
    ensures IsDate(d)
  {
    if g.billingDay.LastOfMonth? then AddMonths(billingDay, 1, true)
    else
      var following := AddMonths(Date(billingDay.year, billingDay.month, 1), 1, false);
      BillingDayIn(g, following.year, following.month)
  }

  /** The billing day the period of `day` opened on. */
  function PeriodStart(g: Garage, day: Date): (d: Date)
    requires WellFormed(g) && IsDate(day)
    ensures IsDate(d)
  {
    var next := NextBillingDayOnOrAfter(g, day);
    if Before(day, next) then PreviousBillingDay(g, next) else next
  }

  function PeriodFrom(g: Garage, start: Date): Period
    requires WellFormed(g) && IsDate(start)
  {
    Period(Ordinal(start), Ordinal(NextBillingDayAfter(g, start)))
  }

  /** `period_containing`, on the calendar's own dates. */
  function PeriodContainingDate(g: Garage, day: Date): Period
    requires WellFormed(g) && IsDate(day)
  {
    PeriodFrom(g, PeriodStart(g, day))
  }

  function PeriodContaining(g: Garage, day: Day): Period
    requires WellFormed(g)
  {
    PeriodContainingDate(g, FromOrdinal(day))
  }

  function NextPeriodAfter(g: Garage, p: Period): Period
    requires WellFormed(g)
  {
    PeriodContaining(g, p.endDay)
  }

  /** The reference: the periods of a garage, indexed by the month their first day lies in. */
  function PeriodAt(g: Garage, k: int): (p: Period)
    requires WellFormed(g)
    ensures 28 <= p.Days() <= 31
  {
    BillingDaysSpread(g, k);
    Period(BillingOrdinal(g, k), BillingOrdinal(g, k + 1))
  }

  function PeriodIndex(g: Garage, day: Day): int
    requires WellFormed(g)
  {
    var first := FirstBillingMonth(g, FromOrdinal(day));
    if BillingOrdinal(g, first) > day then first - 1 else first
  }

  lemma PreviousIsOneMonthBack(g: Garage, k: int)
    requires WellFormed(g)
    ensures PreviousBillingDay(g, BillingDayIn(g, k / 12, k % 12 + 1))
            == BillingDayIn(g, (k - 1) / 12, (k - 1) % 12 + 1)
  {
    MonthAfter(BillingDayIn(g, k / 12, k % 12 + 1), -1);
  }

  lemma NextIsOneMonthOn(g: Garage, k: int)
    requires WellFormed(g)
    ensures NextBillingDayAfter(g, BillingDayIn(g, k / 12, k % 12 + 1))
            == BillingDayIn(g, (k + 1) / 12, (k + 1) % 12 + 1)
  {
    MonthAfter(BillingDayIn(g, k / 12, k % 12 + 1), 1);
  }

  /** The billing day of month `k`, as a date. */
  function BillingDate(g: Garage, k: int): (d: Date)
    requires WellFormed(g)
    ensures IsDate(d) && Ordinal(d) == BillingOrdinal(g, k)
  {
    BillingDayIn(g, k / 12, k % 12 + 1)
  }

  lemma IndexBrackets(g: Garage, day: Day)
    requires WellFormed(g)
    ensures BillingOrdinal(g, PeriodIndex(g, day)) <= day < BillingOrdinal(g, PeriodIndex(g, day) + 1)
  {
    hide FirstBillingMonth, BillingOrdinal, FromOrdinal, Ordinal;
    OrdinalRoundTrip(day);
    NextBillingDayIsFirst(g, FromOrdinal(day));
    BillingDaysSpread(g, FirstBillingMonth(g, FromOrdinal(day)));
  }

  /** The source's walk -- the next billing day, then one back if it overshot -- lands on the bracketing month. */
  lemma PeriodStartIs(g: Garage, d: Date)
    requires WellFormed(g) && IsDate(d)
    ensures PeriodStart(g, d) == BillingDate(g, PeriodIndex(g, Ordinal(d)))
  {
    hide FirstBillingMonth, BillingOrdinal, FromOrdinal, Ordinal, BillingDayIn, PreviousBillingDay,
         NextBillingDayOnOrAfter, Before;
    DateRoundTrip(d);
    NextBillingDayIsFirst(g, d);
    var k := FirstBillingMonth(g, d);
    OrdinalOrder(d, BillingDate(g, k));
    PreviousIsOneMonthBack(g, k);
  }

  lemma PeriodFromIs(g: Garage, k: int)
    requires WellFormed(g)
    ensures PeriodFrom(g, BillingDate(g, k)) == PeriodAt(g, k)
  {
    NextIsOneMonthOn(g, k);
    assert NextBillingDayAfter(g, BillingDate(g, k)) == BillingDate(g, k + 1);
  }

  /** The source's period of a day is the indexed one, and the day is in it. */
  lemma PeriodOfADay(g: Garage, day: Day)
    requires WellFormed(g)
    ensures PeriodContaining(g, day) == PeriodAt(g, PeriodIndex(g, day))
    ensures PeriodAt(g, PeriodIndex(g, day)).Contains(day)
  {
    OrdinalRoundTrip(day);
    PeriodStartIs(g, FromOrdinal(day));
    PeriodFromIs(g, PeriodIndex(g, day));
    IndexBrackets(g, day);
  }

  lemma IndexIsUnique(g: Garage, k: int, day: Day)
    requires WellFormed(g) && PeriodAt(g, k).Contains(day)
    ensures PeriodIndex(g, day) == k
  {
    IndexBrackets(g, day);
    BracketsAgree(g, k, PeriodIndex(g, day), day);
  }

  lemma BracketsAgree(g: Garage, j: int, k: int, day: Day)
    requires WellFormed(g) && PeriodAt(g, j).Contains(day) && PeriodAt(g, k).Contains(day)
    ensures j == k
  {
    if j + 1 < k {
      BillingDaysAscend(g, j + 1, k);
    } else if k + 1 < j {
      BillingDaysAscend(g, k + 1, j);
    }
  }

  /** Periods partition all days: a day's period holds it, is the period of exactly its own days, lasts
      28 to 31 days, and the next one starts where it ends. */
  lemma PeriodsPartitionTime(g: Garage, day: Day, other: Day)
    requires WellFormed(g)
    ensures var p := PeriodContaining(g, day);
            p.Contains(day)
            && (p.Contains(other) <==> PeriodContaining(g, other) == p)
            && 28 <= p.Days() <= 31
            && NextPeriodAfter(g, p).startDay == p.endDay
            && NextPeriodAfter(g, p) == PeriodAt(g, PeriodIndex(g, day) + 1)
  {
    hide PeriodContaining, PeriodIndex, BillingOrdinal;
    var k := PeriodIndex(g, day);
    PeriodOfADay(g, day);
    PeriodOfADay(g, other);
    BillingDaysSpread(g, k);
    BillingDaysSpread(g, k + 1);
    PeriodOfADay(g, BillingOrdinal(g, k + 1));
    IndexIsUnique(g, k + 1, BillingOrdinal(g, k + 1));
    if PeriodAt(g, k).Contains(other) {
      IndexIsUnique(g, k, other);
    }
  }

  /** A month-end garage divides by the length of the month its period ends in: 28 or 29 for the period
      that ends in February. The other options divide by the length of the month it starts in. */
  lemma ProrationDivisor(g: Garage, k: int, day: Day)
    requires WellFormed(g) && PeriodAt(g, k).Contains(day)
    ensures var m := k + (if g.billingDay.LastOfMonth? then 1 else 0);
            var year, month := m / 12, m % 12 + 1;
            PeriodContaining(g, day).Days()
            == if month == 2 && year % 4 == 0 && (year % 100 != 0 || year % 400 == 0) then 29
               else [31, 28, 31, 30, 31, 30, 31, 31, 30, 31, 30, 31][month - 1]
  {
    hide PeriodContaining, PeriodIndex, PeriodAt, DaysInMonth;
    var m := k + (if g.billingDay.LastOfMonth? then 1 else 0);
    MonthLengths(m / 12, m % 12 + 1);
    PeriodOfADay(g, day);
    IndexIsUnique(g, k, day);
    PeriodLength(g, k);
  }

  lemma PeriodLength(g: Garage, k: int)
    requires WellFormed(g)
    ensures PeriodAt(g, k).Days() == MonthLength(k + (if g.billingDay.LastOfMonth? then 1 else 0))
  {
    BillingDaysSpread(g, k);
  }
}
