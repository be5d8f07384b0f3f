/** What a payer owes for one garage and one period: `invoice.py`, and the rule of `billing_run.py`
    that says which of the first charge and the run prices a period. */
module Invoicing {
  import opened Calendar
  import opened Garages
  import opened Agreements
  import opened Cycle
  import opened Proration
  import opened Lines
  import opened Options

  datatype InvoiceError = GarageMismatch

  datatype Invoice = Invoice(payer: PayerId, garage: GarageId, issuedFor: Day, lines: seq<Line>)

  // ---------------------------------------------------------------- the reference

  function BilledDays(a: Agreement, p: Period, since: Option<Day>): nat {
    |BillableSet(a, p.startDay, p.endDay, since)|
  }

  /** What the monthly price comes to over `p`. */
  function MonthlyAmount(a: Agreement, p: Period): int
    requires p.Days() > 0
  {
    Share(a.price, BilledDays(a, p, None), p.Days())
  }

  /** A recurring fee is billed for the agreement's days from the later of its own start and the period's. */
  function RecurringAmount(a: Agreement, fee: Fee, p: Period): int
    requires p.Days() > 0
  {
    Share(fee.amount, BilledDays(a, p, Some(Max(fee.effectiveFrom, p.startDay))), p.Days())
  }

  function PricedLine(kind: LineKind, amount: int, a: Agreement, p: Period, fee: Option<int>): Line {
    Line(kind, amount, Some(a.id), Some(a.version), p.startDay, p.endDay, fee, None, None)
  }

  function RecurringLines(a: Agreement, fees: seq<Fee>, p: Period): seq<Line>
    requires p.Days() > 0
  {
    if fees == [] then []
    else
      var last := fees[|fees| - 1];
      RecurringLines(a, fees[..|fees| - 1], p)
      + (if last.cadence.Recurring? && last.effectiveFrom < p.endDay
         then [PricedLine(RecurringFee, RecurringAmount(a, last, p), a, p, Some(last.name))] else [])
  }

  function OneTimeLines(a: Agreement, fees: seq<Fee>, p: Period): seq<Line> {
    if fees == [] then []
    else
      var last := fees[|fees| - 1];
      OneTimeLines(a, fees[..|fees| - 1], p)
      + (if last.cadence.OneTime? && p.Contains(last.effectiveFrom)
         then [PricedLine(OneTimeFee, last.amount, a, p, Some(last.name))] else [])
  }

  function FeesOf(a: Agreement, p: Period): seq<Line>
    requires p.Days() > 0
  {
    RecurringLines(a, a.fees, p) + OneTimeLines(a, a.fees, p)
  }

  /** One agreement's lines on the invoice of a period the run prices: none without a billable day. */
  function RunLines(a: Agreement, p: Period): seq<Line> {
    if p.Days() <= 0 || BilledDays(a, p, None) == 0 then []
    else
      [PricedLine(if BilledDays(a, p, None) == p.Days() then FullPeriod else PartialPeriod,
                  MonthlyAmount(a, p), a, p, None)]
      + FeesOf(a, p)
  }

  /** The two periods of the first charge, each with its own line whatever the start day. */
  function FirstChargeLines(a: Agreement, partial: Period, following: Period): seq<Line>
    requires partial.Days() > 0 && following.Days() > 0
  {
    [PricedLine(PartialPeriod, MonthlyAmount(a, partial), a, partial, None)] + FeesOf(a, partial)
    + [PricedLine(FullPeriod, MonthlyAmount(a, following), a, following, None)] + FeesOf(a, following)
  }

  // ---------------------------------------------------------------- the source's own steps

  lemma SinceThePeriodStartIsNoLimit(a: Agreement, p: Period)
    ensures BillableSet(a, p.startDay, p.endDay, Some(p.startDay)) == BillableSet(a, p.startDay, p.endDay, None)
  {}

  lemma WholePeriodShare(amount: int, days: int)
    requires days > 0
    ensures Share(amount, days, days) == amount
  {
    assert amount * days < (amount + 1) * days by {
      assert (amount + 1) * days == amount * days + days;
    }
    QuotientIsLargest(amount * days, amount, days);
  }

  /** Every branch of the fee code -- before the period, inside it, whole month or part -- bills the one
      share from the later of the two starts. */
  method FeeLines(a: Agreement, p: Period, prorated: bool) returns (lines: seq<Line>)
    requires p.Days() > 0
    ensures lines == FeesOf(a, p)
  {
    lines := [];
    var days := BillableDays(a, p, None);
    for i := 0 to |a.fees|
      invariant lines == RecurringLines(a, a.fees[..i], p)
    {
      var fee := a.fees[i];
      assert a.fees[..i + 1][..i] == a.fees[..i];
      if fee.cadence.Recurring? && fee.effectiveFrom < p.endDay {
        var feeDays := days;
        if fee.effectiveFrom > p.startDay {
          feeDays := BillableDays(a, p, Some(fee.effectiveFrom));
        }
        SinceThePeriodStartIsNoLimit(a, p);
        BillableDaysWithinThePeriod(a, p, Some(Max(fee.effectiveFrom, p.startDay)));
        var part := prorated || feeDays != p.Days();
        var amount := if part then Prorate(fee.amount, feeDays, p.Days()).value else fee.amount;
        WholePeriodShare(fee.amount, p.Days());
        lines := lines + [PricedLine(RecurringFee, amount, a, p, Some(fee.name))];
      }
    }
    assert a.fees[..|a.fees|] == a.fees;
    var recurring := lines;
    for i := 0 to |a.fees|
      invariant lines == recurring + OneTimeLines(a, a.fees[..i], p)
    {
      assert a.fees[..i + 1][..i] == a.fees[..i];
      if a.fees[i].cadence.OneTime? && p.Contains(a.fees[i].effectiveFrom) {
        lines := lines + [PricedLine(OneTimeFee, a.fees[i].amount, a, p, Some(a.fees[i].name))];
      }
    }
  }

  /** `first_charge`: the money door first, then two periods, each its own line. */
  method FirstCharge(g: Garage, a: Agreement) returns (r: Result<Invoice, InvoiceError>)
    requires WellFormed(g)
    ensures r.Refused? <==> a.garage != g.id
    ensures r.Ok? ==>
      var k := PeriodIndex(g, a.startDay);
      r.value == Invoice(a.payer, g.id, PeriodAt(g, k).startDay,
                            FirstChargeLines(a, PeriodAt(g, k), PeriodAt(g, k + 1)))
    ensures r.Ok? ==>
      var p := PeriodAt(g, PeriodIndex(g, a.startDay));
      var n, amount := |BillableSet(a, p.startDay, p.endDay, None)|, r.value.lines[0].amount;
      amount * p.Days() <= a.price * n < (amount + 1) * p.Days()
  {
    hide PeriodIndex, PeriodContaining, NextPeriodAfter, BillingOrdinal;
    if a.garage != g.id {
      return Refused(GarageMismatch);
    }
    var partial := PeriodContaining(g, a.startDay);
    var following := NextPeriodAfter(g, partial);
    PeriodsPartitionTime(g, a.startDay, a.startDay);
    PeriodOfADay(g, a.startDay);

    var partialDays := BillableDays(a, partial, None);
    BillableDaysWithinThePeriod(a, partial, None);
    ShareRoundsDown(a.price, partialDays, partial.Days());
    var lines := [PricedLine(PartialPeriod, Prorate(a.price, partialDays, partial.Days()).value, a, partial, None)];
    var fees := FeeLines(a, partial, true);
    lines := lines + fees;
    var followingDays := BillableDays(a, following, None);
    BillableDaysWithinThePeriod(a, following, None);
    lines := lines
             + [PricedLine(FullPeriod, Prorate(a.price, followingDays, following.Days()).value, a, following, None)];
    fees := FeeLines(a, following, followingDays != following.Days());
    lines := lines + fees;
    r := Ok(Invoice(a.payer, g.id, partial.startDay, lines));
  }

  function InsertById(a: Agreement, sorted: seq<Agreement>): seq<Agreement> {
    if sorted == [] || a.id <= sorted[0].id then [a] + sorted
    else [sorted[0]] + InsertById(a, sorted[1..])
  }

  function SortedById(agreements: seq<Agreement>): seq<Agreement> {
    if agreements == [] then [] else InsertById(agreements[0], SortedById(agreements[1..]))
  }

  /** Each of the payer's agreements contributes its own lines, in order of id. */
  function PayersLines(agreements: seq<Agreement>, p: Period, payer: PayerId): seq<Line> {
    if agreements == [] then []
    else
      var last := agreements[|agreements| - 1];
      PayersLines(agreements[..|agreements| - 1], p, payer)
      + (if last.payer == payer then RunLines(last, p) else [])
  }

  predicate AllHomedHere(agreements: seq<Agreement>, g: GarageId, payer: PayerId) {
    forall a :: a in agreements && a.payer == payer ==> a.garage == g
  }

  /** `invoice_for_period`: refused as soon as one of the payer's agreements is billed elsewhere. */
  method InvoiceForPeriod(g: Garage, agreements: seq<Agreement>, p: Period, payer: PayerId)
    returns (r: Result<Invoice, InvoiceError>)
    ensures r.Refused? <==> exists a :: a in agreements && a.payer == payer && a.garage != g.id
    ensures r.Ok? ==> r.value == Invoice(payer, g.id, p.startDay, PayersLines(SortedById(agreements), p, payer))
  {
    hide SortedById, FeesOf, PricedLine;
    var sorted := SortedById(agreements);
    SortingKeepsTheAgreements(agreements);
    var lines := [];
    for i := 0 to |sorted|
      invariant lines == PayersLines(sorted[..i], p, payer)
      invariant AllHomedHere(sorted[..i], g.id, payer)
    {
      var a := sorted[i];
      assert sorted[..i + 1][..i] == sorted[..i];
      assert a in sorted;
      if a.payer == payer {
        if a.garage != g.id {
          return Refused(GarageMismatch);
        }
        var days := BillableDays(a, p, None);
        if days != 0 {
          assert p.Days() > 0 by {
            assert p.Days() <= 0 ==> BillableSet(a, p.startDay, p.endDay, None) == {};
          }
          BillableDaysWithinThePeriod(a, p, None);
          lines := lines + [PricedLine(if days == p.Days() then FullPeriod else PartialPeriod,
                                       Prorate(a.price, days, p.Days()).value, a, p, None)];
          var fees := FeeLines(a, p, days != p.Days());
          lines := lines + fees;
        }
      }
    }
    assert sorted[..|sorted|] == sorted;
    r := Ok(Invoice(payer, g.id, p.startDay, lines));
  }

  lemma {:induction false} InsertByIdKeeps(a: Agreement, sorted: seq<Agreement>)
    ensures multiset(InsertById(a, sorted)) == multiset(sorted) + multiset{a}
  {
    if sorted != [] && sorted[0].id < a.id {
      InsertByIdKeeps(a, sorted[1..]);
      assert sorted == [sorted[0]] + sorted[1..];
    }
  }

  lemma {:induction false} InsertByIdOrders(a: Agreement, sorted: seq<Agreement>)
    requires forall i, j :: 0 <= i < j < |sorted| ==> sorted[i].id <= sorted[j].id
    ensures var r := InsertById(a, sorted);
            forall i, j :: 0 <= i < j < |r| ==> r[i].id <= r[j].id
  {
    if sorted != [] && sorted[0].id < a.id {
      var tail := sorted[1..];
      var rest := InsertById(a, tail);
      InsertByIdOrders(a, tail);
      InsertByIdKeeps(a, tail);
      forall j | 0 <= j < |rest| ensures sorted[0].id <= rest[j].id {
        assert rest[j] in multiset(tail) + multiset{a};
      }
    }
  }

  lemma {:induction false} SortingOrders(agreements: seq<Agreement>)
    ensures var r := SortedById(agreements);
            multiset(r) == multiset(agreements) && (forall i, j :: 0 <= i < j < |r| ==> r[i].id <= r[j].id)
  {
    if agreements != [] {
      SortingOrders(agreements[1..]);
      InsertByIdOrders(agreements[0], SortedById(agreements[1..]));
      InsertByIdKeeps(agreements[0], SortedById(agreements[1..]));
      assert agreements == [agreements[0]] + agreements[1..];
    }
  }

  lemma SortingKeepsTheAgreements(agreements: seq<Agreement>)
    ensures forall a :: a in SortedById(agreements) <==> a in agreements
  {
    SortingOrders(agreements);
    forall a ensures a in SortedById(agreements) <==> a in agreements {
      assert a in SortedById(agreements) <==> a in multiset(SortedById(agreements));
    }
  }

  // ---------------------------------------------------------------- who prices a period

  /** `owned_by_first_charge`: by period, never by counting lines. */
  predicate OwnedByFirstCharge(g: Garage, a: Agreement, p: Period)
    requires WellFormed(g)
  {
    var partial := PeriodContaining(g, a.startDay);
    var following := NextPeriodAfter(g, partial);
    p.startDay == partial.startDay || p.startDay == following.startDay
  }

  /** The first charge owns exactly the period of the start day and the one after it. */
  lemma FirstChargeOwnsTwo(g: Garage, a: Agreement, k: int)
    requires WellFormed(g)
    ensures OwnedByFirstCharge(g, a, PeriodAt(g, k))
            <==> k == PeriodIndex(g, a.startDay) || k == PeriodIndex(g, a.startDay) + 1
  {
    hide PeriodIndex, PeriodContaining, NextPeriodAfter, BillingOrdinal;
    PeriodOfADay(g, a.startDay);
    PeriodsPartitionTime(g, a.startDay, a.startDay);
    SameStartSamePeriod(g, k, PeriodIndex(g, a.startDay));
    SameStartSamePeriod(g, k, PeriodIndex(g, a.startDay) + 1);
  }

  lemma SameStartSamePeriod(g: Garage, j: int, k: int)
    requires WellFormed(g)
    ensures BillingOrdinal(g, j) == BillingOrdinal(g, k) <==> j == k
  {
    if j < k {
      BillingDaysAscend(g, j, k);
    } else if k < j {
      BillingDaysAscend(g, k, j);
    }
  }

  function LinesOver(lines: int -> seq<Line>, lo: int, hi: int): seq<Line>
    requires lo <= hi
    decreases hi - lo
  {
    if lo == hi then [] else LinesOver(lines, lo, hi - 1) + lines(hi - 1)
  }

  function SumOver(f: int -> int, lo: int, hi: int): int
    requires lo <= hi
    decreases hi - lo
  {
    if lo == hi then 0 else SumOver(f, lo, hi - 1) + f(hi - 1)
  }

  /** The run's lines for period `k`, priced from the version current then: none where the first charge owns it. */
  function RunAt(g: Garage, at: int -> Agreement): int -> seq<Line>
    requires WellFormed(g)
  {
    k => if OwnedByFirstCharge(g, at(k), PeriodAt(g, k)) then [] else RunLines(at(k), PeriodAt(g, k))
  }

  function FirstChargeOf(g: Garage, a: Agreement): seq<Line>
    requires WellFormed(g)
  {
    FirstChargeLines(a, PeriodAt(g, PeriodIndex(g, a.startDay)), PeriodAt(g, PeriodIndex(g, a.startDay) + 1))
  }

  /** Everything billed to the agreement over periods `lo` to `hi`: the first charge, taken on version
      `first`, and the runs, period `k` on version `at(k)`. */
  function BilledOver(g: Garage, first: Agreement, at: int -> Agreement, lo: int, hi: int): seq<Line>
    requires WellFormed(g) && lo <= hi
  {
    FirstChargeOf(g, first) + LinesOver(RunAt(g, at), lo, hi)
  }

  /** The prorated price of period `k`: on the binding version for the first charge's two periods, on the
      version current at the run for every other. */
  function PriceOfPeriod(g: Garage, first: Agreement, at: int -> Agreement): int -> int
    requires WellFormed(g)
  {
    var k0 := PeriodIndex(g, first.startDay);
    k => MonthlyAmount(if k == k0 || k == k0 + 1 then first else at(k), PeriodAt(g, k))
  }

  lemma {:induction false} SumsOver(lines: int -> seq<Line>, amount: int -> int, count: int -> int, pick: Pick, lo: int,
                                    hi: int)
    requires lo <= hi
    requires forall k :: lo <= k < hi ==> amount(k) == Amount(lines(k), pick) && count(k) == Count(lines(k), pick)
    ensures Amount(LinesOver(lines, lo, hi), pick) == SumOver(amount, lo, hi)
    ensures Count(LinesOver(lines, lo, hi), pick) == SumOver(count, lo, hi)
    decreases hi - lo
  {
    if lo < hi {
      SumsOver(lines, amount, count, pick, lo, hi - 1);
      SumsOverConcatenation(LinesOver(lines, lo, hi - 1), lines(hi - 1), pick);
    }
  }

  /** Two sums that agree except at `k0` and `k0 + 1`, where the first is zero. */
  lemma {:induction false} SumWithoutTwo(without: int -> int, whole: int -> int, k0: int, lo: int, hi: int)
    requires lo <= hi
    requires forall k :: without(k) == (if k == k0 || k == k0 + 1 then 0 else whole(k))
    ensures SumOver(without, lo, hi)
            + (if lo <= k0 < hi then whole(k0) else 0) + (if lo <= k0 + 1 < hi then whole(k0 + 1) else 0)
            == SumOver(whole, lo, hi)
    decreases hi - lo
  {
    if lo < hi {
      SumWithoutTwo(without, whole, k0, lo, hi - 1);
    }
  }

  lemma {:induction false} RecurringLinesAreNeither(a: Agreement, fees: seq<Fee>, p: Period, pick: Pick)
    requires p.Days() > 0 && (pick.Monthly? || pick.OneTimeFor?)
    ensures Amount(RecurringLines(a, fees, p), pick) == 0 && Count(RecurringLines(a, fees, p), pick) == 0
  {
    if fees != [] {
      var last, front := fees[|fees| - 1], RecurringLines(a, fees[..|fees| - 1], p);
      assert front + [] == front;
      RecurringLinesAreNeither(a, fees[..|fees| - 1], p, pick);
      SumsOverConcatenation(front, [PricedLine(RecurringFee, RecurringAmount(a, last, p), a, p, Some(last.name))],
                            pick);
      SumsOverOne(PricedLine(RecurringFee, RecurringAmount(a, last, p), a, p, Some(last.name)), pick);
    }
  }

  lemma {:induction false} OneTimeLinesAreNotMonthly(a: Agreement, fees: seq<Fee>, p: Period)
    ensures Amount(OneTimeLines(a, fees, p), Monthly) == 0
  {
    if fees != [] {
      var last, front := fees[|fees| - 1], OneTimeLines(a, fees[..|fees| - 1], p);
      assert front + [] == front;
      OneTimeLinesAreNotMonthly(a, fees[..|fees| - 1], p);
      SumsOverConcatenation(front, [PricedLine(OneTimeFee, last.amount, a, p, Some(last.name))], Monthly);
      SumsOverOne(PricedLine(OneTimeFee, last.amount, a, p, Some(last.name)), Monthly);
    }
  }

  /** A monthly line and its fees: the fees add nothing monthly. */
  lemma MonthlyOfOnePeriod(a: Agreement, p: Period, kind: LineKind)
    requires p.Days() > 0 && (kind.PartialPeriod? || kind.FullPeriod?)
    ensures Amount([PricedLine(kind, MonthlyAmount(a, p), a, p, None)] + FeesOf(a, p), Monthly) == MonthlyAmount(a, p)
  {
    var head := PricedLine(kind, MonthlyAmount(a, p), a, p, None);
    RecurringLinesAreNeither(a, a.fees, p, Monthly);
    OneTimeLinesAreNotMonthly(a, a.fees, p);
    SumsOverOne(head, Monthly);
    SumsOverConcatenation([head], FeesOf(a, p), Monthly);
    SumsOverConcatenation(RecurringLines(a, a.fees, p), OneTimeLines(a, a.fees, p), Monthly);
  }

  lemma MonthlyOfRunLines(a: Agreement, p: Period)
    requires p.Days() > 0
    ensures Amount(RunLines(a, p), Monthly) == MonthlyAmount(a, p)
  {
    MonthlyOfOnePeriod(a, p, if BilledDays(a, p, None) == p.Days() then FullPeriod else PartialPeriod);
    if BilledDays(a, p, None) == 0 {
      assert MonthlyAmount(a, p) == 0 / p.Days();
    }
  }

  lemma FirstChargeIsTwoParts(a: Agreement, partial: Period, following: Period, pick: Pick)
    requires partial.Days() > 0 && following.Days() > 0
    ensures var x := [PricedLine(PartialPeriod, MonthlyAmount(a, partial), a, partial, None)] + FeesOf(a, partial);
            var y := [PricedLine(FullPeriod, MonthlyAmount(a, following), a, following, None)] + FeesOf(a, following);
            FirstChargeLines(a, partial, following) == x + y
            && Amount(x + y, pick) == Amount(x, pick) + Amount(y, pick)
            && Count(x + y, pick) == Count(x, pick) + Count(y, pick)
  {
    var x := [PricedLine(PartialPeriod, MonthlyAmount(a, partial), a, partial, None)] + FeesOf(a, partial);
    var y := [PricedLine(FullPeriod, MonthlyAmount(a, following), a, following, None)] + FeesOf(a, following);
    assert FirstChargeLines(a, partial, following) == x + y;
    SumsOverConcatenation(x, y, pick);
  }

  lemma MonthlyOfFirstCharge(a: Agreement, partial: Period, following: Period)
    requires partial.Days() > 0 && following.Days() > 0
    ensures Amount(FirstChargeLines(a, partial, following), Monthly)
            == MonthlyAmount(a, partial) + MonthlyAmount(a, following)
  {
    FirstChargeIsTwoParts(a, partial, following, Monthly);
    MonthlyOfOnePeriod(a, partial, PartialPeriod);
    MonthlyOfOnePeriod(a, following, FullPeriod);
  }

  lemma MonthlyOfRunAt(g: Garage, first: Agreement, at: int -> Agreement, k: int)
    requires WellFormed(g) && PeriodIndex(g, at(k).startDay) == PeriodIndex(g, first.startDay)
    ensures var k0 := PeriodIndex(g, first.startDay);
            Amount(RunAt(g, at)(k), Monthly) == (if k == k0 || k == k0 + 1 then 0 else PriceOfPeriod(g, first, at)(k))
  {
    hide PeriodIndex, MonthlyAmount, OwnedByFirstCharge, RunLines, BillingOrdinal;
    FirstChargeOwnsTwo(g, at(k), k);
    MonthlyOfRunLines(at(k), PeriodAt(g, k));
  }

  /** What the first charge bills of two periods when the stretch leaves them out. */
  function Outside(price: int -> int, k: int, lo: int, hi: int): int {
    if lo <= k < hi then 0 else price(k)
  }

  /** No version moves the start day out of its period. */
  ghost predicate StartsInOnePeriod(g: Garage, first: Agreement, at: int -> Agreement)
    requires WellFormed(g)
  {
    forall k :: PeriodIndex(g, at(k).startDay) == PeriodIndex(g, first.startDay)
  }

  /** Whatever versions are stored, as long as the start day stays in its period: over any stretch of periods, the
      monthly lines billed come to each period's prorated price exactly once -- the stretch's own, and the first
      charge's two where the stretch does not hold them. */
  lemma EveryPeriodIsPricedOnce(g: Garage, first: Agreement, at: int -> Agreement, lo: int, hi: int)
    requires WellFormed(g) && lo <= hi
    requires StartsInOnePeriod(g, first, at)
    ensures var k0, price := PeriodIndex(g, first.startDay), PriceOfPeriod(g, first, at);
            Amount(BilledOver(g, first, at, lo, hi), Monthly)
            == SumOver(price, lo, hi) + Outside(price, k0, lo, hi) + Outside(price, k0 + 1, lo, hi)
  {
    hide PeriodIndex, PeriodAt, MonthlyAmount, Amount, OwnedByFirstCharge, RunLines, FirstChargeLines, LinesOver,
         SumOver;
    var k0 := PeriodIndex(g, first.startDay);
    var run, price := RunAt(g, at), PriceOfPeriod(g, first, at);
    MonthlyOfFirstCharge(first, PeriodAt(g, k0), PeriodAt(g, k0 + 1));
    forall k ensures Amount(run(k), Monthly) == (if k == k0 || k == k0 + 1 then 0 else price(k)) {
      assert PeriodIndex(g, at(k).startDay) == k0;
      MonthlyOfRunAt(g, first, at, k);
    }
    TwoPathsPriceOnce(FirstChargeOf(g, first), run, price, k0, lo, hi);
  }

  /** Where one path prices two periods and the other every period but those, each is priced once. */
  lemma TwoPathsPriceOnce(firstCharge: seq<Line>, run: int -> seq<Line>, price: int -> int, k0: int, lo: int, hi: int)
    requires lo <= hi
    requires Amount(firstCharge, Monthly) == price(k0) + price(k0 + 1)
    requires forall k :: Amount(run(k), Monthly) == (if k == k0 || k == k0 + 1 then 0 else price(k))
    ensures Amount(firstCharge + LinesOver(run, lo, hi), Monthly)
            == SumOver(price, lo, hi) + Outside(price, k0, lo, hi) + Outside(price, k0 + 1, lo, hi)
  {
    var monthly, counted := k => Amount(run(k), Monthly), k => Count(run(k), Monthly);
    SumsOver(run, monthly, counted, Monthly, lo, hi);
    SumWithoutTwo(monthly, price, k0, lo, hi);
    SumsOverConcatenation(firstCharge, LinesOver(run, lo, hi), Monthly);
  }

  /** What the run prices of period `k`: nothing where the version current takes it for its first charge's. */
  function RunPrice(g: Garage, at: int -> Agreement): int -> int
    requires WellFormed(g)
  {
    k => if OwnedByFirstCharge(g, at(k), PeriodAt(g, k)) then 0 else MonthlyAmount(at(k), PeriodAt(g, k))
  }

  /** Whatever versions are stored and whatever start days they have: the first charge bills its two periods as its own
      version dates them, and each run its period unless its own version takes it for the first charge's. So a period
      of the stretch is priced exactly once just where the two versions agree on who owns it. */
  lemma PricedByTheVersionOfTheDay(g: Garage, first: Agreement, at: int -> Agreement, lo: int, hi: int)
    requires WellFormed(g) && lo <= hi
    ensures var k0 := PeriodIndex(g, first.startDay);
            Amount(BilledOver(g, first, at, lo, hi), Monthly)
            == MonthlyAmount(first, PeriodAt(g, k0)) + MonthlyAmount(first, PeriodAt(g, k0 + 1))
               + SumOver(RunPrice(g, at), lo, hi)
  {
    hide PeriodIndex, PeriodAt, MonthlyAmount, Amount, OwnedByFirstCharge, RunLines, FirstChargeLines, LinesOver,
         SumOver;
    var k0 := PeriodIndex(g, first.startDay);
    var run, price, counted := RunAt(g, at), RunPrice(g, at), k => Count(RunAt(g, at)(k), Monthly);
    MonthlyOfFirstCharge(first, PeriodAt(g, k0), PeriodAt(g, k0 + 1));
    forall k ensures price(k) == Amount(run(k), Monthly) {
      MonthlyOfRunLines(at(k), PeriodAt(g, k));
      NothingComesToNothing(Monthly);
    }
    SumsOver(run, price, counted, Monthly, lo, hi);
    SumsOverConcatenation(FirstChargeOf(g, first), LinesOver(run, lo, hi), Monthly);
  }

  /** The two paths divide every period between them, none twice and none left, exactly when the version that the
      runs price starts in the period that the first charge's did. */
  lemma OwnersAgreeIff(g: Garage, first: Agreement, later: Agreement)
    requires WellFormed(g)
    ensures (forall k :: OwnedByFirstCharge(g, first, PeriodAt(g, k)) <==> OwnedByFirstCharge(g, later, PeriodAt(g, k)))
            <==> PeriodIndex(g, first.startDay) == PeriodIndex(g, later.startDay)
  {
    hide OwnedByFirstCharge, PeriodIndex, PeriodAt;
    var k0, j0 := PeriodIndex(g, first.startDay), PeriodIndex(g, later.startDay);
    forall k
      ensures OwnedByFirstCharge(g, first, PeriodAt(g, k)) <==> k == k0 || k == k0 + 1
      ensures OwnedByFirstCharge(g, later, PeriodAt(g, k)) <==> k == j0 || k == j0 + 1
    {
      FirstChargeOwnsTwo(g, first, k);
      FirstChargeOwnsTwo(g, later, k);
    }
    if k0 != j0 {
      var k := if k0 < j0 then k0 else j0;
      assert OwnedByFirstCharge(g, first, PeriodAt(g, k)) != OwnedByFirstCharge(g, later, PeriodAt(g, k));
    }
  }

  lemma NothingComesToNothing(pick: Pick)
    ensures Amount([], pick) == 0
  {}

  // ---------------------------------------------------------------- one-time fees

  predicate IsOneTimeNamed(fee: Fee, name: int) {
    fee.cadence.OneTime? && fee.name == name
  }

  /** Whether a list holds a one-time fee by this name dated in the period. */
  predicate DatedIn(fees: seq<Fee>, name: int, p: Period) {
    exists i :: 0 <= i < |fees| && IsOneTimeNamed(fees[i], name) && p.Contains(fees[i].effectiveFrom)
  }

  lemma OneMoreFee(front: seq<Line>, line: Line, pick: Pick)
    ensures Count(front + [line], pick) == Count(front, pick) + (if pick.Takes(line) then 1 else 0)
    ensures front + [] == front
  {
    assert (front + [line])[..|front|] == front;
  }

  lemma DatedInOneMore(front: seq<Fee>, last: Fee, name: int, p: Period)
    requires FeesNamedApart(front + [last])
    ensures DatedIn(front + [last], name, p)
            <==> DatedIn(front, name, p) || (IsOneTimeNamed(last, name) && p.Contains(last.effectiveFrom))
    ensures IsOneTimeNamed(last, name) ==> !DatedIn(front, name, p)
    ensures FeesNamedApart(front)
  {
    var fees := front + [last];
    assert fees[|front|] == last && forall i :: 0 <= i < |front| ==> fees[i] == front[i];
  }

  lemma {:induction false} OneTimeLinesOfAName(a: Agreement, fees: seq<Fee>, p: Period, name: int)
    requires FeesNamedApart(fees)
    ensures Count(OneTimeLines(a, fees, p), OneTimeFor(name)) == (if DatedIn(fees, name, p) then 1 else 0)
  {
    hide Count, FeesNamedApart, DatedIn;
    if fees == [] {
      NoFeesNoLines(a, p, name);
    } else {
      var last, front := fees[|fees| - 1], fees[..|fees| - 1];
      assert fees == front + [last];
      DatedInOneMore(front, last, name, p);
      OneTimeLinesOfAName(a, front, p, name);
      OneMoreFee(OneTimeLines(a, front, p), PricedLine(OneTimeFee, last.amount, a, p, Some(last.name)),
                 OneTimeFor(name));
    }
  }

  lemma NoFeesNoLines(a: Agreement, p: Period, name: int)
    ensures Count(OneTimeLines(a, [], p), OneTimeFor(name)) == 0 && !DatedIn([], name, p)
  {}

  /** One agreement's lines for a period bill a one-time fee once if the period holds its day, else never. */
  lemma OneTimeOfOnePeriod(a: Agreement, p: Period, kind: LineKind, name: int)
    requires p.Days() > 0 && (kind.PartialPeriod? || kind.FullPeriod?) && FeesNamedApart(a.fees)
    ensures Count([PricedLine(kind, MonthlyAmount(a, p), a, p, None)] + FeesOf(a, p), OneTimeFor(name))
            == (if DatedIn(a.fees, name, p) then 1 else 0)
  {
    hide Count, MonthlyAmount, FeesNamedApart, DatedIn;
    var head := PricedLine(kind, MonthlyAmount(a, p), a, p, None);
    RecurringLinesAreNeither(a, a.fees, p, OneTimeFor(name));
    OneTimeLinesOfAName(a, a.fees, p, name);
    SumsOverOne(head, OneTimeFor(name));
    SumsOverConcatenation([head], FeesOf(a, p), OneTimeFor(name));
    SumsOverConcatenation(RecurringLines(a, a.fees, p), OneTimeLines(a, a.fees, p), OneTimeFor(name));
  }

  /** The run of period `k` bills the fee: the period is not the first charge's, and the version current then dates
      the fee in it and has a billable day. */
  predicate RunBillsFee(g: Garage, at: int -> Agreement, name: int, k: int)
    requires WellFormed(g)
  {
    var p := PeriodAt(g, k);
    !OwnedByFirstCharge(g, at(k), p) && DatedIn(at(k).fees, name, p) && BilledDays(at(k), p, None) > 0
  }

  /** The first charge bills the fee: the version it is taken on dates it in one of the two periods. */
  predicate FirstChargeBillsFee(g: Garage, first: Agreement, name: int)
    requires WellFormed(g)
  {
    var k0 := PeriodIndex(g, first.startDay);
    DatedIn(first.fees, name, PeriodAt(g, k0)) || DatedIn(first.fees, name, PeriodAt(g, k0 + 1))
  }

  lemma OneTimeOfRunAt(g: Garage, at: int -> Agreement, name: int, k: int)
    requires WellFormed(g) && FeesNamedApart(at(k).fees)
    ensures Count(RunAt(g, at)(k), OneTimeFor(name)) == (if RunBillsFee(g, at, name, k) then 1 else 0)
  {
    hide Count, MonthlyAmount, FeesNamedApart, DatedIn, FeesOf, BilledDays, OwnedByFirstCharge, BillingOrdinal;
    var p := PeriodAt(g, k);
    NothingCounts(OneTimeFor(name));
    OneTimeOfOnePeriod(at(k), p, if BilledDays(at(k), p, None) == p.Days() then FullPeriod else PartialPeriod, name);
  }

  lemma NothingCounts(pick: Pick)
    ensures Count([], pick) == 0 && Amount([], pick) == 0
  {}

  lemma DayInOnePeriod(g: Garage, k: int, day: Day)
    requires WellFormed(g)
    ensures PeriodAt(g, k).Contains(day) <==> k == PeriodIndex(g, day)
  {
    PeriodOfADay(g, day);
    if PeriodAt(g, k).Contains(day) {
      IndexIsUnique(g, k, day);
    }
  }

  /** A fee has one date, so two periods do not both hold it. */
  lemma DatedInOnePeriod(g: Garage, fees: seq<Fee>, name: int, j: int, k: int)
    requires WellFormed(g) && FeesNamedApart(fees) && DatedIn(fees, name, PeriodAt(g, j))
             && DatedIn(fees, name, PeriodAt(g, k))
    ensures j == k
  {
    hide PeriodAt, PeriodIndex;
    var i :| 0 <= i < |fees| && IsOneTimeNamed(fees[i], name) && PeriodAt(g, j).Contains(fees[i].effectiveFrom);
    var m :| 0 <= m < |fees| && IsOneTimeNamed(fees[m], name) && PeriodAt(g, k).Contains(fees[m].effectiveFrom);
    assert i == m;
    DayInOnePeriod(g, j, fees[i].effectiveFrom);
    DayInOnePeriod(g, k, fees[i].effectiveFrom);
  }

  lemma OneTimeOfFirstCharge(g: Garage, first: Agreement, name: int)
    requires WellFormed(g) && FeesNamedApart(first.fees)
    ensures Count(FirstChargeOf(g, first), OneTimeFor(name)) == (if FirstChargeBillsFee(g, first, name) then 1 else 0)
  {
    hide PeriodIndex, BillingOrdinal, FeesOf, FirstChargeLines, MonthlyAmount, Count, DatedIn, FeesNamedApart;
    var k0 := PeriodIndex(g, first.startDay);
    FirstChargeIsTwoParts(first, PeriodAt(g, k0), PeriodAt(g, k0 + 1), OneTimeFor(name));
    OneTimeOfOnePeriod(first, PeriodAt(g, k0), PartialPeriod, name);
    OneTimeOfOnePeriod(first, PeriodAt(g, k0 + 1), FullPeriod, name);
    if DatedIn(first.fees, name, PeriodAt(g, k0)) && DatedIn(first.fees, name, PeriodAt(g, k0 + 1)) {
      DatedInOnePeriod(g, first.fees, name, k0, k0 + 1);
    }
  }

  /** The run periods of a stretch that bill the fee. */
  function RunPeriods(g: Garage, at: int -> Agreement, name: int, lo: int, hi: int): set<int>
    requires WellFormed(g)
  {
    set k | lo <= k < hi && RunBillsFee(g, at, name, k)
  }

  lemma {:induction false} CountsOverAStretch(g: Garage, at: int -> Agreement, name: int, count: int -> int, lo: int,
                                              hi: int)
    requires WellFormed(g) && lo <= hi
    requires forall k :: count(k) == (if RunBillsFee(g, at, name, k) then 1 else 0)
    ensures SumOver(count, lo, hi) == |RunPeriods(g, at, name, lo, hi)|
    decreases hi - lo
  {
    hide RunBillsFee;
    if lo == hi {
      assert RunPeriods(g, at, name, lo, hi) == {};
    } else {
      CountsOverAStretch(g, at, name, count, lo, hi - 1);
      assert RunPeriods(g, at, name, lo, hi)
             == RunPeriods(g, at, name, lo, hi - 1) + (if RunBillsFee(g, at, name, hi - 1) then {hi - 1} else {});
    }
  }

  /** How often a one-time fee is billed, whatever versions are stored and wherever each of them dates it: once by
      the first charge if the version that was taken on dates it in its two periods, and once by each run whose
      own version dates it in the period run and has a billable day there. */
  lemma OneTimeFeeCount(g: Garage, first: Agreement, at: int -> Agreement, name: int, lo: int, hi: int)
    requires WellFormed(g) && lo <= hi && FeesNamedApart(first.fees) && (forall k :: FeesNamedApart(at(k).fees))
    ensures Count(BilledOver(g, first, at, lo, hi), OneTimeFor(name))
            == (if FirstChargeBillsFee(g, first, name) then 1 else 0) + |RunPeriods(g, at, name, lo, hi)|
  {
    hide Count, FeesNamedApart, RunBillsFee, FirstChargeBillsFee, FirstChargeOf, RunPeriods, LinesOver;
    var run := RunAt(g, at);
    var amounts, counts := k => Amount(run(k), OneTimeFor(name)), k => Count(run(k), OneTimeFor(name));
    forall k ensures counts(k) == (if RunBillsFee(g, at, name, k) then 1 else 0) {
      assert FeesNamedApart(at(k).fees);
      OneTimeOfRunAt(g, at, name, k);
    }
    SumsOver(run, amounts, counts, OneTimeFor(name), lo, hi);
    CountsOverAStretch(g, at, name, counts, lo, hi);
    OneTimeOfFirstCharge(g, first, name);
    SumsOverConcatenation(FirstChargeOf(g, first), LinesOver(run, lo, hi), OneTimeFor(name));
  }

  /** A version that holds the fee dates it on this day. */
  predicate DatesItOn(a: Agreement, name: int, day: Day) {
    forall i :: 0 <= i < |a.fees| && IsOneTimeNamed(a.fees[i], name) ==> a.fees[i].effectiveFrom == day
  }

  predicate HoldsFee(a: Agreement, name: int) {
    exists i :: 0 <= i < |a.fees| && IsOneTimeNamed(a.fees[i], name)
  }

  lemma DatedWhereItIsHeld(g: Garage, a: Agreement, name: int, day: Day, k: int)
    requires WellFormed(g) && DatesItOn(a, name, day)
    ensures DatedIn(a.fees, name, PeriodAt(g, k)) <==> HoldsFee(a, name) && k == PeriodIndex(g, day)
  {
    hide PeriodAt, PeriodIndex;
    DayInOnePeriod(g, k, day);
    if HoldsFee(a, name) {
      var i :| 0 <= i < |a.fees| && IsOneTimeNamed(a.fees[i], name);
      assert a.fees[i].effectiveFrom == day;
    }
  }

  /** What bills a fee that every version dates alike: the first charge's own version, where the date is in its two
      periods; the version current at the run, with a billable day, anywhere else. */
  predicate FeeIsBilled(g: Garage, first: Agreement, at: int -> Agreement, name: int, day: Day, lo: int, hi: int)
    requires WellFormed(g)
  {
    var k0, kf := PeriodIndex(g, first.startDay), PeriodIndex(g, day);
    if kf == k0 || kf == k0 + 1 then HoldsFee(first, name)
    else lo <= kf < hi && HoldsFee(at(kf), name) && BilledDays(at(kf), PeriodAt(g, kf), None) > 0
  }

  /** With start days in one period, a fee that every version holding it dates alike is billed at most once -- and
      once exactly when the version that is to bill its period holds it, with a billable day where that is a run. */
  lemma OneTimeFeesAreBilledOnce(g: Garage, first: Agreement, at: int -> Agreement, name: int, day: Day, lo: int,
                                 hi: int)
    requires WellFormed(g) && lo <= hi && FeesNamedApart(first.fees) && (forall k :: FeesNamedApart(at(k).fees))
    requires StartsInOnePeriod(g, first, at)
    requires DatesItOn(first, name, day) && forall k :: DatesItOn(at(k), name, day)
    ensures Count(BilledOver(g, first, at, lo, hi), OneTimeFor(name))
            == (if FeeIsBilled(g, first, at, name, day, lo, hi) then 1 else 0)
  {
    hide FeesNamedApart, DatesItOn, HoldsFee, DatedIn, BilledDays, PeriodIndex, PeriodAt, OwnedByFirstCharge, Count,
         BilledOver;
    var k0, kf := PeriodIndex(g, first.startDay), PeriodIndex(g, day);
    OneTimeFeeCount(g, first, at, name, lo, hi);
    DatedWhereItIsHeld(g, first, name, day, k0);
    DatedWhereItIsHeld(g, first, name, day, k0 + 1);
    forall k ensures RunBillsFee(g, at, name, k)
                     <==> k == kf && kf != k0 && kf != k0 + 1 && HoldsFee(at(kf), name)
                          && BilledDays(at(kf), PeriodAt(g, kf), None) > 0 {
      assert PeriodIndex(g, at(k).startDay) == k0 && DatesItOn(at(k), name, day);
      DatedWhereItIsHeld(g, at(k), name, day, k);
      FirstChargeOwnsTwo(g, at(k), k);
    }
    var run := RunPeriods(g, at, name, lo, hi);
    assert run == if lo <= kf < hi && RunBillsFee(g, at, name, kf) then {kf} else {};
  }
}
