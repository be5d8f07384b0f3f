/** Inputs at which a one-time fee is not billed exactly once: `invoice.py` and `billing_run.py` at one garage, over
    versions that a save accepts. `Invoicing.OneTimeFeeCount` says how often, whatever the versions. */
module FeeCases {
  import opened Calendar
  import opened Garages
  import opened Agreements
  import opened Cycle
  import opened Proration
  import opened Lines
  import opened Invoicing
  import opened Options

  /** Bills on the first of the month, where every day is an instant. */
  function FirstOfTheMonth(): (g: Garage)
    ensures WellFormed(g)
  {
    Garage(1, Zone(i => LocalTime(i, 0), d => d), 1, FirstOfMonth, 0, Exact)
  }

  /** From 1 January of year 1, with a fee or without, to a day of cancellation or on. */
  function Version(version: int, fees: seq<Fee>, cancelled: Option<Day>): Agreement {
    Agreement(1, version, 1, 1, 1, ["A1"], 100, 1, [1], true, if cancelled.Some? then Cancelled else Active,
              cancelled, None, [], fees, ThisModule)
  }

  const DEPOSIT := 7

  function DepositOn(day: Day): seq<Fee> {
    [Fee(DEPOSIT, 50, OneTime, day)]
  }

  lemma VersionsAreAccepted(version: int, fees: seq<Fee>, cancelled: Option<Day>)
    requires version >= 1 && (fees == [] || exists day :: fees == DepositOn(day))
    ensures Accepted(Version(version, fees, cancelled)) && FeesNamedApart(fees)
  {
    assert !IsSpace("A1"[0]);
  }

  /** January and February belong to the first charge; March is the first period a run prices. */
  lemma FirstMonths()
    ensures var g := FirstOfTheMonth();
            WellFormed(g)
            && PeriodAt(g, 12) == Period(1, 32) && PeriodAt(g, 13) == Period(32, 60)
            && PeriodAt(g, 14) == Period(60, 91)
            && PeriodIndex(g, 1) == 12 && PeriodIndex(g, 10) == 12 && PeriodIndex(g, 70) == 14
  {
    hide PeriodIndex, BillingOrdinal, MonthStart;
    var g := FirstOfTheMonth();
    MonthStarts();
    BillingOrdinalInMonth(g, 12);
    BillingOrdinalInMonth(g, 13);
    BillingOrdinalInMonth(g, 14);
    BillingOrdinalInMonth(g, 15);
    IndexIsUnique(g, 12, 1);
    IndexIsUnique(g, 12, 10);
    IndexIsUnique(g, 14, 70);
  }

  lemma MonthStarts()
    ensures MonthStart(12) == 1 && MonthStart(13) == 32 && MonthStart(14) == 60 && MonthStart(15) == 91
  {
    MonthsAbut(12);
    MonthsAbut(13);
    MonthsAbut(14);
  }

  lemma DepositDates(version: int, day: Day, cancelled: Option<Day>)
    ensures var a := Version(version, DepositOn(day), cancelled);
            DatesItOn(a, DEPOSIT, day) && HoldsFee(a, DEPOSIT)
            && forall p: Period :: DatedIn(a.fees, DEPOSIT, p) <==> p.Contains(day)
    ensures DatesItOn(Version(version, [], cancelled), DEPOSIT, day)
            && !HoldsFee(Version(version, [], cancelled), DEPOSIT)
  {
    var fees := DepositOn(day);
    assert IsOneTimeNamed(fees[0], DEPOSIT);
  }

  /** The day is in the garage's `k`th period, and the agreement has a billable day there. */
  predicate LiveAround(g: Garage, a: Agreement, k: int, day: Day)
    requires WellFormed(g)
  {
    PeriodAt(g, k).Contains(day) && BilledDays(a, PeriodAt(g, k), None) > 0
  }

  lemma LiveUntilCancelled(a: Agreement, p: Period)
    requires a.pauses == [] && a.startDay <= p.startDay < p.endDay
    ensures BilledDays(a, p, None) > 0 <==> a.cancelledDay.None? || p.startDay < a.cancelledDay.value
  {
    var days := BillableSet(a, p.startDay, p.endDay, None);
    if a.cancelledDay.None? || p.startDay < a.cancelledDay.value {
      assert p.startDay in days;
    } else {
      assert days == {};
    }
  }

  /** A fee that a later version adds, dated in a period the first charge has already billed, is never billed:
      the run leaves that period to the first charge, which was taken on the version before. */
  lemma AFeeAddedTooLate(lo: int, hi: int)
    requires lo <= 12 && 15 <= hi
    ensures var g, first, later := FirstOfTheMonth(), Version(1, [], None), Version(2, DepositOn(10), None);
            Accepted(first) && Accepted(later) && LiveAround(g, later, 12, 10)
            && Count(BilledOver(g, first, (k: int) => later, lo, hi), OneTimeFor(DEPOSIT)) == 0
  {
    hide BilledDays, PeriodIndex, PeriodAt, Count, BilledOver, Accepted, DatesItOn, HoldsFee, FeesNamedApart;
    var g, first, later := FirstOfTheMonth(), Version(1, [], None), Version(2, DepositOn(10), None);
    VersionsAreAccepted(1, [], None);
    VersionsAreAccepted(2, DepositOn(10), None);
    DepositDates(1, 10, None);
    DepositDates(2, 10, None);
    FirstMonths();
    LiveUntilCancelled(later, PeriodAt(g, 12));
    OneTimeFeesAreBilledOnce(g, first, (k: int) => later, DEPOSIT, 10, lo, hi);
  }

  /** A fee whose date a later version moves from the first charge's periods to one a run prices is billed twice. */
  lemma AFeeMoved(lo: int, hi: int)
    requires lo <= 12 && 15 <= hi
    ensures var g, first, later := FirstOfTheMonth(), Version(1, DepositOn(10), None), Version(2, DepositOn(70), None);
            Accepted(first) && Accepted(later)
            && Count(BilledOver(g, first, (k: int) => later, lo, hi), OneTimeFor(DEPOSIT)) == 2
  {
    hide BilledDays, PeriodIndex, PeriodAt, Count, BilledOver, Accepted, FeesNamedApart, DatedIn, OwnedByFirstCharge;
    var g, first, later := FirstOfTheMonth(), Version(1, DepositOn(10), None), Version(2, DepositOn(70), None);
    var at := (k: int) => later;
    VersionsAreAccepted(1, DepositOn(10), None);
    VersionsAreAccepted(2, DepositOn(70), None);
    DepositDates(1, 10, None);
    DepositDates(2, 70, None);
    FirstMonths();
    LiveUntilCancelled(later, PeriodAt(g, 14));
    OneTimeFeeCount(g, first, at, DEPOSIT, lo, hi);
    forall k ensures RunBillsFee(g, at, DEPOSIT, k) <==> k == 14 {
      FirstChargeOwnsTwo(g, later, k);
      DayInOnePeriod(g, k, 70);
    }
    assert RunPeriods(g, at, DEPOSIT, lo, hi) == {14};
  }

  /** A fee dated in a period without a billable day, outside the first charge's two, is never billed: here the
      agreement is cancelled as March begins. */
  lemma AFeeInADeadPeriod(lo: int, hi: int)
    requires lo <= 12 && 15 <= hi
    ensures var g, a := FirstOfTheMonth(), Version(1, DepositOn(70), Some(60));
            Accepted(a) && PeriodIndex(g, 70) == 14 && !FeeIsBilled(g, a, (k: int) => a, DEPOSIT, 70, lo, hi)
            && Count(BilledOver(g, a, (k: int) => a, lo, hi), OneTimeFor(DEPOSIT)) == 0
  {
    hide BilledDays, PeriodIndex, PeriodAt, Count, BilledOver, Accepted, DatesItOn, HoldsFee, FeesNamedApart;
    var g, a := FirstOfTheMonth(), Version(1, DepositOn(70), Some(60));
    VersionsAreAccepted(1, DepositOn(70), Some(60));
    DepositDates(1, 70, Some(60));
    FirstMonths();
    LiveUntilCancelled(a, PeriodAt(g, 14));
    OneTimeFeesAreBilledOnce(g, a, (k: int) => a, DEPOSIT, 70, lo, hi);
  }
}
