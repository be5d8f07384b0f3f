/** What the lines of `invoice.py` come to in the agreement's own figures: its price and fees, the days of the period
    and the days it is live. `Invoicing` says which lines there are. */
module PricedShares {
  import opened Calendar
  import opened Garages
  import opened Agreements
  import opened Cycle
  import opened Proration
  import opened Lines
  import opened Invoicing
  import opened BilledLines
  import opened Options

  /** The days of the period, from a day on, that the agreement has started, is not cancelled and is not paused. */
  ghost predicate AreLiveDays(a: Agreement, p: Period, from: Day, live: set<Day>) {
    forall day :: day in live
      <==> p.startDay <= day < p.endDay && from <= day && a.startDay <= day
           && (a.cancelledDay == None || day < a.cancelledDay.value)
           && !(exists i :: 0 <= i < |a.pauses| && a.pauses[i].fromDay <= day < a.pauses[i].untilDay)
  }

  /** The share of `full` that falls to `n` of `days`, rounded down to the unit. */
  predicate IsShareOf(amount: int, full: int, n: int, days: int) {
    amount * days <= full * n < (amount + 1) * days
  }

  lemma LiveDaysAre(a: Agreement, p: Period, from: Day, live: set<Day>, since: Option<Day>)
    requires AreLiveDays(a, p, from, live)
    requires Max(if since.Some? then since.value else p.startDay, p.startDay) == Max(from, p.startDay)
    ensures BilledDays(a, p, since) == |live|
  {
    hide AreLiveDays;
    forall day ensures day in BillableSet(a, p.startDay, p.endDay, since) <==> day in live {
      ALiveDay(a, p, from, live, since, day);
    }
    assert BillableSet(a, p.startDay, p.endDay, since) == live;
  }

  lemma ALiveDay(a: Agreement, p: Period, from: Day, live: set<Day>, since: Option<Day>, day: Day)
    requires AreLiveDays(a, p, from, live)
    requires Max(if since.Some? then since.value else p.startDay, p.startDay) == Max(from, p.startDay)
    ensures day in BillableSet(a, p.startDay, p.endDay, since) <==> day in live
  {
    hide PausedOn;
    PausedOnIs(a.pauses, day);
    assert day in live <==> p.startDay <= day < p.endDay && from <= day && a.startDay <= day
                            && (a.cancelledDay == None || day < a.cancelledDay.value) && !PausedOn(a.pauses, day);
  }

  lemma PausedOnIs(pauses: seq<Pause>, day: Day)
    ensures PausedOn(pauses, day) <==> exists i :: 0 <= i < |pauses| && pauses[i].fromDay <= day < pauses[i].untilDay
  {
    if PausedOn(pauses, day) {
      var i :| 0 <= i < |pauses| && pauses[i].Covers(day);
      assert pauses[i].fromDay <= day < pauses[i].untilDay;
    }
    if i :| 0 <= i < |pauses| && pauses[i].fromDay <= day < pauses[i].untilDay {
      assert pauses[i].Covers(day);
    }
  }

  lemma SharesAre(full: int, n: nat, days: int)
    requires days > 0 && n <= days
    ensures IsShareOf(Share(full, n, days), full, n, days)
    ensures n == days ==> Share(full, n, days) == full
    ensures n == 0 ==> Share(full, n, days) == 0
  {
    ShareRoundsDown(full, n, days);
    WholePeriodShare(full, days);
    assert full * 0 == 0 && 0 / days == 0;
  }

  /** The monthly amount is the price's share of the live days: all of it where every day is live, nothing where none
      is, and in between never more than the exact share nor a unit less. */
  lemma MonthlyAmountIs(a: Agreement, p: Period, live: set<Day>)
    requires p.startDay < p.endDay && AreLiveDays(a, p, p.startDay, live)
    ensures IsShareOf(MonthlyAmount(a, p), a.price, |live|, p.endDay - p.startDay)
    ensures |live| == p.endDay - p.startDay ==> MonthlyAmount(a, p) == a.price
    ensures live == {} ==> MonthlyAmount(a, p) == 0
    ensures BilledDays(a, p, None) == |live| <= p.endDay - p.startDay
  {
    hide Share;
    LiveDaysAre(a, p, p.startDay, live, None);
    BillableDaysWithinThePeriod(a, p, None);
    SharesAre(a.price, |live|, p.Days());
  }

  /** A line of the agreement's for the period, of this kind and for this fee, whatever it comes to. */
  predicate IsFor(l: Line, kind: LineKind, a: Agreement, p: Period, fee: Option<int>) {
    l == Line(kind, l.amount, Some(a.id), Some(a.version), p.startDay, p.endDay, fee, None, None)
  }

  /** A run's lines: none at all without a live day; otherwise one monthly line, full where every day of the period is
      live and partial where not, for the price's share, and then fees. */
  lemma ARunBillsTheShare(a: Agreement, p: Period, live: set<Day>)
    requires p.startDay < p.endDay && AreLiveDays(a, p, p.startDay, live)
    ensures live == {} <==> RunLines(a, p) == []
    ensures live != {} ==>
              var lines, days := RunLines(a, p), p.endDay - p.startDay;
              IsFor(lines[0], if |live| == days then FullPeriod else PartialPeriod, a, p, None)
              && IsShareOf(lines[0].amount, a.price, |live|, days)
              && (|live| == days ==> lines[0].amount == a.price)
              && lines[1..] == FeesOf(a, p)
  {
    hide FeesOf, MonthlyAmount, BilledDays;
    MonthlyAmountIs(a, p, live);
  }

  /** The first charge's lines: a partial line and a full one, each for the price's share of its own period however many
      days are live there, and each followed by its period's fees. */
  lemma TheFirstChargeBillsTheShares(a: Agreement, partial: Period, following: Period, live: set<Day>, next: set<Day>)
    requires partial.startDay < partial.endDay && AreLiveDays(a, partial, partial.startDay, live)
    requires following.startDay < following.endDay && AreLiveDays(a, following, following.startDay, next)
    ensures var lines, second := FirstChargeLines(a, partial, following), 1 + |FeesOf(a, partial)|;
            second < |lines|
            && IsFor(lines[0], PartialPeriod, a, partial, None)
            && IsShareOf(lines[0].amount, a.price, |live|, partial.endDay - partial.startDay)
            && lines[1..second] == FeesOf(a, partial)
            && IsFor(lines[second], FullPeriod, a, following, None)
            && IsShareOf(lines[second].amount, a.price, |next|, following.endDay - following.startDay)
            && lines[second + 1..] == FeesOf(a, following)
  {
    hide FeesOf, MonthlyAmount;
    MonthlyAmountIs(a, partial, live);
    MonthlyAmountIs(a, following, next);
  }

  // ---------------------------------------------------------------- fees

  /** The lines for one fee. */
  function LinesFor(lines: seq<Line>, name: int): seq<Line> {
    if lines == [] then []
    else
      var last := lines[|lines| - 1];
      LinesFor(lines[..|lines| - 1], name) + (if last.fee == Some(name) then [last] else [])
  }

  lemma {:induction false} ForBoth(a: seq<Line>, b: seq<Line>, name: int)
    ensures LinesFor(a + b, name) == LinesFor(a, name) + LinesFor(b, name)
  {
    if b == [] {
      assert a + b == a;
    } else {
      ForBoth(a, b[..|b| - 1], name);
      assert (a + b)[..|a + b| - 1] == a + b[..|b| - 1];
    }
  }

  /** What one fee adds. */
  lemma OneMoreFor(front: seq<Line>, more: seq<Line>, name: int)
    requires |more| <= 1
    ensures LinesFor(front + more, name)
            == LinesFor(front, name) + (if more != [] && more[0].fee == Some(name) then more else [])
  {
    ForBoth(front, more, name);
    assert more != [] ==> more[..0] == [];
  }

  function RecurringLine(a: Agreement, fee: Fee, p: Period): seq<Line>
    requires p.Days() > 0
  {
    if fee.cadence.Recurring? && fee.effectiveFrom < p.endDay
    then [PricedLine(RecurringFee, RecurringAmount(a, fee, p), a, p, Some(fee.name))] else []
  }

  function OneTimeLine(a: Agreement, fee: Fee, p: Period): seq<Line> {
    if fee.cadence.OneTime? && p.Contains(fee.effectiveFrom)
    then [PricedLine(OneTimeFee, fee.amount, a, p, Some(fee.name))] else []
  }

  lemma {:induction false} LinesForAName(a: Agreement, fees: seq<Fee>, p: Period, name: int)
    requires p.Days() > 0 && FeesNamedApart(fees)
    ensures (forall i :: 0 <= i < |fees| ==> fees[i].name != name) ==>
              LinesFor(RecurringLines(a, fees, p), name) == [] && LinesFor(OneTimeLines(a, fees, p), name) == []
    ensures forall i :: 0 <= i < |fees| && fees[i].name == name ==>
              LinesFor(RecurringLines(a, fees, p), name) == RecurringLine(a, fees[i], p)
              && LinesFor(OneTimeLines(a, fees, p), name) == OneTimeLine(a, fees[i], p)
  {
    hide RecurringAmount;
    if fees != [] {
      var front, last := fees[..|fees| - 1], fees[|fees| - 1];
      LinesForAName(a, front, p, name);
      OneMoreFor(RecurringLines(a, front, p), RecurringLine(a, last, p), name);
      OneMoreFor(OneTimeLines(a, front, p), OneTimeLine(a, last, p), name);
      assert RecurringLines(a, fees, p) == RecurringLines(a, front, p) + RecurringLine(a, last, p);
      assert OneTimeLines(a, fees, p) == OneTimeLines(a, front, p) + OneTimeLine(a, last, p);
      assert forall i :: 0 <= i < |front| ==> front[i] == fees[i] && fees[i].name != last.name;
      if last.name == name {
        assert LinesFor(RecurringLines(a, front, p), name) == [] && LinesFor(OneTimeLines(a, front, p), name) == [];
      }
    }
  }

  lemma RecurringAmountIs(a: Agreement, fee: Fee, p: Period, live: set<Day>)
    requires p.startDay < p.endDay && AreLiveDays(a, p, fee.effectiveFrom, live)
    ensures IsShareOf(RecurringAmount(a, fee, p), fee.amount, |live|, p.endDay - p.startDay)
    ensures |live| == p.endDay - p.startDay ==> RecurringAmount(a, fee, p) == fee.amount
  {
    hide Share;
    var since := Some(Max(fee.effectiveFrom, p.startDay));
    LiveDaysAre(a, p, fee.effectiveFrom, live, since);
    BillableDaysWithinThePeriod(a, p, since);
    SharesAre(fee.amount, |live|, p.Days());
  }

  /** Each fee of the agreement has its own line and no more than one: a recurring fee that has started by the period's
      end, for its share of the live days from its own start on; a one-time fee dated in the period, for its amount. */
  lemma AFeeBillsItsShare(a: Agreement, p: Period, i: nat, live: set<Day>)
    requires FeesNamedApart(a.fees) && i < |a.fees| && p.startDay < p.endDay
    requires AreLiveDays(a, p, a.fees[i].effectiveFrom, live)
    ensures var fee := a.fees[i];
            var lines := LinesFor(FeesOf(a, p), fee.name);
            if fee.cadence == Recurring && fee.effectiveFrom < p.endDay then
              |lines| == 1 && IsFor(lines[0], RecurringFee, a, p, Some(fee.name))
              && IsShareOf(lines[0].amount, fee.amount, |live|, p.endDay - p.startDay)
              && (|live| == p.endDay - p.startDay ==> lines[0].amount == fee.amount)
            else if fee.cadence == OneTime && p.startDay <= fee.effectiveFrom < p.endDay then
              |lines| == 1 && IsFor(lines[0], OneTimeFee, a, p, Some(fee.name)) && lines[0].amount == fee.amount
            else lines == []
  {
    hide RecurringAmount, FeesNamedApart, RecurringLines, OneTimeLines, LinesFor;
    var fee := a.fees[i];
    ForBoth(RecurringLines(a, a.fees, p), OneTimeLines(a, a.fees, p), fee.name);
    LinesForAName(a, a.fees, p, fee.name);
    RecurringAmountIs(a, fee, p, live);
  }

  /** No fee line is for anything but one of the agreement's fees. */
  lemma {:induction false} EveryFeeLineIsOfAFee(a: Agreement, fees: seq<Fee>, p: Period, l: Line)
    requires p.Days() > 0
    ensures l in RecurringLines(a, fees, p) || l in OneTimeLines(a, fees, p) ==>
              exists i :: 0 <= i < |fees| && l.fee == Some(fees[i].name)
  {
    hide RecurringAmount;
    if fees != [] {
      var front := fees[..|fees| - 1];
      EveryFeeLineIsOfAFee(a, front, p, l);
      if i :| 0 <= i < |front| && l.fee == Some(front[i].name) {
        assert fees[i] == front[i];
      }
      assert fees[|fees| - 1] in fees;
    }
  }

  // ---------------------------------------------------------------- a payer's invoice

  /** On the invoice of a period, whatever else the payer has, each of its agreements is billed its own share: no line
      without a live day, and otherwise one monthly line for it and then its fees. */
  lemma AnInvoiceBillsEachShare(agreements: seq<Agreement>, p: Period, payer: PayerId, a: Agreement, live: set<Day>)
    requires IdsApart(agreements) && a in agreements && a.payer == payer
    requires p.startDay < p.endDay && AreLiveDays(a, p, p.startDay, live)
    ensures var mine, days := LinesUnder(PayersLines(SortedById(agreements), p, payer), a.id), p.endDay - p.startDay;
            (live == {} <==> mine == [])
            && (live != {} ==>
                  IsFor(mine[0], if |live| == days then FullPeriod else PartialPeriod, a, p, None)
                  && IsShareOf(mine[0].amount, a.price, |live|, days)
                  && (|live| == days ==> mine[0].amount == a.price)
                  && mine[1..] == FeesOf(a, p))
  {
    hide RunLines, FeesOf, SortedById, PayersLines, LinesUnder;
    SortingKeepsApart(agreements);
    SortingKeepsTheAgreements(agreements);
    forall x | x in SortedById(agreements) && x.id == a.id ensures x == a {
      var i :| 0 <= i < |agreements| && agreements[i] == x;
      var j :| 0 <= j < |agreements| && agreements[j] == a;
    }
    UnderThePayers(SortedById(agreements), p, payer, a);
    ARunBillsTheShare(a, p, live);
  }
}
