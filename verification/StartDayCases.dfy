/** What comes of a version that moves the start day, which a save does not refuse: whole months billed to nobody, or
    twice. `Invoicing.PricedByTheVersionOfTheDay` says what is billed, whatever the start days. */
module StartDayCases {
  import opened Calendar
  import opened Garages
  import opened Agreements
  import opened Cycle
  import opened Proration
  import opened Lines
  import opened Invoicing
  import opened Register
  import opened FeeCases
  import opened Options

  /** Version 1 or 2 of the one agreement, from the day given and on. */
  function From(version: int, day: Day): Agreement {
    Version(version, [], None).(startDay := day)
  }

  lemma MovingIsAccepted(day: Day, other: Day)
    ensures Accepted(From(1, day)) && Accepted(From(2, other))
    ensures RefusalOfVersion(From(1, day), From(2, other), []).None?
  {
    VersionsAreAccepted(1, [], None);
    VersionsAreAccepted(2, [], None);
  }

  /** March begins on day 60 and April on day 91. */
  lemma FourMonths()
    ensures var g := FirstOfTheMonth();
            WellFormed(g)
            && PeriodAt(g, 12) == Period(1, 32) && PeriodAt(g, 13) == Period(32, 60)
            && PeriodAt(g, 14) == Period(60, 91) && PeriodAt(g, 15) == Period(91, 121)
            && PeriodIndex(g, 1) == 12 && PeriodIndex(g, 60) == 14
  {
    hide PeriodIndex, BillingOrdinal, MonthStart;
    var g := FirstOfTheMonth();
    FirstMonths();
    MonthStarts();
    MonthsAbut(15);
    BillingOrdinalInMonth(g, 15);
    BillingOrdinalInMonth(g, 16);
    IndexIsUnique(g, 14, 60);
  }

  lemma AWholeMonth(version: int, day: Day, p: Period)
    requires day <= p.startDay < p.endDay
    ensures MonthlyAmount(From(version, day), p) == 100 && BilledDays(From(version, day), p, None) > 0
  {
    hide Share;
    assert BillableSet(From(version, day), p.startDay, p.endDay, None) == Interval(p.startDay, p.endDay);
    IntervalSize(p.startDay, p.endDay);
    WholePeriodShare(100, p.Days());
  }

  lemma NotBegun(version: int, day: Day, p: Period)
    requires p.startDay < p.endDay <= day
    ensures MonthlyAmount(From(version, day), p) == 0
  {
    assert BillableSet(From(version, day), p.startDay, p.endDay, None) == {};
    assert 0 / p.Days() == 0;
  }

  lemma SumOfFour(price: int -> int)
    ensures SumOver(price, 12, 16) == price(12) + price(13) + price(14) + price(15)
  {
    assert SumOver(price, 12, 13) == price(12);
    assert SumOver(price, 12, 14) == price(12) + price(13);
  }

  /** The first charge took January and February; then the start day moves to March. The runs leave March and April
      to a first charge that will not come: two months that the agreement is live in are never billed. */
  lemma AStartDayMovedOn()
    ensures var g, first, later := FirstOfTheMonth(), From(1, 1), From(2, 60);
            Accepted(first) && Accepted(later) && RefusalOfVersion(first, later, []).None?
            && BilledDays(later, PeriodAt(g, 14), None) > 0 && BilledDays(later, PeriodAt(g, 15), None) > 0
            && Amount(BilledOver(g, first, (k: int) => later, 12, 16), Monthly)
               == MonthlyAmount(first, PeriodAt(g, 12)) + MonthlyAmount(first, PeriodAt(g, 13)) == 200
  {
    hide Accepted, From, BilledDays, PeriodIndex, PeriodAt, Amount, BilledOver, MonthlyAmount, OwnedByFirstCharge,
         RefusalOfVersion, SumOver;
    var g, first, later := FirstOfTheMonth(), From(1, 1), From(2, 60);
    MovingIsAccepted(1, 60);
    FourMonths();
    StartsOn(1, 1);
    StartsOn(2, 60);
    FourOwned(g, later);
    AWholeMonth(1, 1, PeriodAt(g, 12));
    AWholeMonth(1, 1, PeriodAt(g, 13));
    AWholeMonth(2, 60, PeriodAt(g, 14));
    AWholeMonth(2, 60, PeriodAt(g, 15));
    NotBegun(2, 60, PeriodAt(g, 12));
    NotBegun(2, 60, PeriodAt(g, 13));
    PricedByTheVersionOfTheDay(g, first, (k: int) => later, 12, 16);
    SumOfFour(RunPrice(g, (k: int) => later));
  }

  lemma StartsOn(version: int, day: Day)
    ensures From(version, day).startDay == day
  {}

  lemma FourOwned(g: Garage, a: Agreement)
    requires WellFormed(g)
    ensures forall k :: OwnedByFirstCharge(g, a, PeriodAt(g, k))
                        <==> k == PeriodIndex(g, a.startDay) || k == PeriodIndex(g, a.startDay) + 1
  {
    hide OwnedByFirstCharge, PeriodIndex, PeriodAt;
    forall k
      ensures OwnedByFirstCharge(g, a, PeriodAt(g, k))
              <==> k == PeriodIndex(g, a.startDay) || k == PeriodIndex(g, a.startDay) + 1
    {
      FirstChargeOwnsTwo(g, a, k);
    }
  }

  /** The first charge took March and April; then the start day moves back to January. The runs price March and April
      again. */
  lemma AStartDayMovedBack()
    ensures var g, first, later := FirstOfTheMonth(), From(1, 60), From(2, 1);
            Accepted(first) && Accepted(later) && RefusalOfVersion(first, later, []).None?
            && Amount(BilledOver(g, first, (k: int) => later, 14, 16), Monthly)
               == 2 * (MonthlyAmount(first, PeriodAt(g, 14)) + MonthlyAmount(first, PeriodAt(g, 15))) == 400
  {
    hide Accepted, From, BilledDays, PeriodIndex, PeriodAt, Amount, BilledOver, MonthlyAmount, OwnedByFirstCharge,
         RefusalOfVersion;
    var g, first, later := FirstOfTheMonth(), From(1, 60), From(2, 1);
    MovingIsAccepted(60, 1);
    FourMonths();
    StartsOn(1, 60);
    StartsOn(2, 1);
    FourOwned(g, later);
    AWholeMonth(1, 60, PeriodAt(g, 14));
    AWholeMonth(1, 60, PeriodAt(g, 15));
    AWholeMonth(2, 1, PeriodAt(g, 14));
    AWholeMonth(2, 1, PeriodAt(g, 15));
    PricedByTheVersionOfTheDay(g, first, (k: int) => later, 14, 16);
    SumOfTwo(RunPrice(g, (k: int) => later));
  }

  lemma SumOfTwo(price: int -> int)
    ensures SumOver(price, 14, 16) == price(14) + price(15)
  {
    assert SumOver(price, 14, 15) == price(14);
  }
}
