/** Billable days and proration: the second half of `cycle.py`. */
module Proration {
  import opened Calendar
  import opened Agreements
  import opened Cycle
  import opened Options

  // ---------------------------------------------------------------- billable days

  predicate Billable(a: Agreement, since: Option<Day>, day: Day) {
    day >= a.startDay
    && (since.None? || day >= since.value)
    && !a.IsPausedOn(day)
    && (a.cancelledDay.None? || day < a.cancelledDay.value)
  }

  function BillableSet(a: Agreement, from: Day, until: Day, since: Option<Day>): set<Day> {
    set day | from <= day < until && Billable(a, since, day)
  }

  /** How many days of the period the agreement is live and unpaused for, counted day by day. */
  method BillableDays(a: Agreement, p: Period, since: Option<Day>) returns (count: nat)
    ensures count == |BillableSet(a, p.startDay, p.endDay, since)|
  {
    count := 0;
    var day := p.startDay;
    while day < p.endDay
      invariant day <= p.endDay || day == p.startDay
      invariant count == |BillableSet(a, p.startDay, day, since)|
    {
      ghost var before := BillableSet(a, p.startDay, day, since);
      if day >= a.startDay && (since.None? || day >= since.value) && !a.IsPausedOn(day) {
        if a.cancelledDay.None? || day < a.cancelledDay.value {
          count := count + 1;
        }
      }
      assert BillableSet(a, p.startDay, day + 1, since) == before + (if Billable(a, since, day) then {day} else {});
      day := day + 1;
    }
    assert p.endDay < p.startDay ==> BillableSet(a, p.startDay, day, since) == {};
    assert BillableSet(a, p.startDay, p.endDay, since) == BillableSet(a, p.startDay, day, since);
  }

  function Max(x: int, y: int): int { if x >= y then x else y }

  function Min(x: int, y: int): int { if x <= y then x else y }

  function Interval(lo: Day, hi: Day): set<Day> {
    set day {:trigger Within(lo, day, hi)} | lo <= day < hi && Within(lo, day, hi)
  }

  predicate Within(lo: Day, day: Day, hi: Day) {
    lo <= day < hi
  }

  function IntervalLength(lo: Day, hi: Day): nat {
    Max(0, hi - lo)
  }

  lemma {:induction false} IntervalSize(lo: Day, hi: Day)
    ensures |Interval(lo, hi)| == IntervalLength(lo, hi)
    decreases IntervalLength(lo, hi)
  {
    if lo < hi {
      IntervalSize(lo, hi - 1);
      assert Interval(lo, hi) == Interval(lo, hi - 1) + {hi - 1};
    } else {
      assert Interval(lo, hi) == {};
    }
  }

  function Overlap(p: Pause, lo: Day, hi: Day): nat {
    IntervalLength(Max(lo, p.fromDay), Min(hi, p.untilDay))
  }

  function PausedLength(pauses: seq<Pause>, lo: Day, hi: Day): nat {
    if pauses == [] then 0 else Overlap(pauses[0], lo, hi) + PausedLength(pauses[1..], lo, hi)
  }

  function PausedSet(pauses: seq<Pause>, lo: Day, hi: Day): set<Day> {
    set day | lo <= day < hi && PausedOn(pauses, day)
  }

  /** Disjoint pauses take out exactly the sum of their overlaps: no day is taken out twice. */
  lemma {:induction false} DisjointPausesAddUp(pauses: seq<Pause>, lo: Day, hi: Day)
    requires PairwiseApart(pauses)
    ensures |PausedSet(pauses, lo, hi)| == PausedLength(pauses, lo, hi)
  {
    hide Max, Min;
    if pauses == [] {
      assert PausedSet(pauses, lo, hi) == {};
    } else {
      var first := Interval(Max(lo, pauses[0].fromDay), Min(hi, pauses[0].untilDay));
      var rest := PausedSet(pauses[1..], lo, hi);
      IntervalSize(Max(lo, pauses[0].fromDay), Min(hi, pauses[0].untilDay));
      DisjointPausesAddUp(pauses[1..], lo, hi);
      FirstPauseAndTheRest(pauses, lo, hi);
    }
  }

  lemma FirstPauseAndTheRest(pauses: seq<Pause>, lo: Day, hi: Day)
    requires pauses != [] && PairwiseApart(pauses)
    ensures var first := Interval(Max(lo, pauses[0].fromDay), Min(hi, pauses[0].untilDay));
            PausedSet(pauses, lo, hi) == first + PausedSet(pauses[1..], lo, hi)
            && first !! PausedSet(pauses[1..], lo, hi)
  {
    hide PairwiseApart, PausedOn;
    forall day ensures PausedOn(pauses, day) <==> pauses[0].Covers(day) || PausedOn(pauses[1..], day) {
      PausedOnHeadOrTail(pauses, day);
    }
    forall day | pauses[0].Covers(day) ensures !PausedOn(pauses[1..], day) {
      FirstPauseApart(pauses, day);
    }
  }

  lemma FirstPauseApart(pauses: seq<Pause>, day: Day)
    requires pauses != [] && PairwiseApart(pauses) && pauses[0].Covers(day)
    ensures !PausedOn(pauses[1..], day)
  {
    forall i | 0 <= i < |pauses[1..]| ensures !pauses[1..][i].Covers(day) {
      ApartPausesShareNoDay(pauses, 0, i + 1, day);
    }
  }

  lemma PausedOnHeadOrTail(pauses: seq<Pause>, day: Day)
    requires pauses != []
    ensures PausedOn(pauses, day) <==> pauses[0].Covers(day) || PausedOn(pauses[1..], day)
  {
    if PausedOn(pauses[1..], day) {
      var i :| 0 <= i < |pauses[1..]| && pauses[1..][i].Covers(day);
      assert pauses[i + 1].Covers(day);
    }
    if PausedOn(pauses, day) && !pauses[0].Covers(day) {
      var i :| 0 <= i < |pauses| && pauses[i].Covers(day);
      assert pauses[1..][i - 1].Covers(day);
    }
  }

  function WindowStart(a: Agreement, from: Day, since: Option<Day>): Day {
    Max(Max(from, a.startDay), if since.Some? then since.value else from)
  }

  function WindowEnd(a: Agreement, until: Day): Day {
    if a.cancelledDay.Some? then Min(until, a.cancelledDay.value) else until
  }

  /** The count in closed form: the live window, less each pause's overlap with it. The constructor's
      refusal of overlapping pauses is what makes the subtraction exact. */
  lemma BillableDaysInClosedForm(a: Agreement, p: Period, since: Option<Day>)
    requires Accepted(a)
    ensures var lo, hi := WindowStart(a, p.startDay, since), WindowEnd(a, p.endDay);
            |BillableSet(a, p.startDay, p.endDay, since)| == IntervalLength(lo, hi) - PausedLength(a.pauses, lo, hi)
  {
    var lo, hi := WindowStart(a, p.startDay, since), WindowEnd(a, p.endDay);
    PausesAcceptedIffDisjoint(a.pauses);
    DisjointPausesAddUp(a.pauses, lo, hi);
    IntervalSize(lo, hi);
    assert BillableSet(a, p.startDay, p.endDay, since) == Interval(lo, hi) - PausedSet(a.pauses, lo, hi);
    assert PausedSet(a.pauses, lo, hi) <= Interval(lo, hi);
  }

  lemma SubsetIsSmaller<T>(s: set<T>, t: set<T>)
    requires s <= t
    ensures |s| <= |t|
  {
    assert t == s + (t - s);
  }

  /** Never more days than the period has, so `prorate` is never handed a count it refuses. */
  lemma BillableDaysWithinThePeriod(a: Agreement, p: Period, since: Option<Day>)
    requires p.Days() > 0
    ensures 0 <= |BillableSet(a, p.startDay, p.endDay, since)| <= p.Days()
    ensures forall full :: Prorate(full, |BillableSet(a, p.startDay, p.endDay, since)|, p.Days()).Ok?
  {
    IntervalSize(p.startDay, p.endDay);
    SubsetIsSmaller(BillableSet(a, p.startDay, p.endDay, since), Interval(p.startDay, p.endDay));
  }

  // ---------------------------------------------------------------- proration

  datatype ProrationError = PeriodHasNoDays | DaysOutsideThePeriod

  function Share(full: int, billed: int, days: int): int
    requires days > 0
  {
    (full * billed) / days
  }

  /** `prorate`: multiply, then divide once, rounding down. */
  function Prorate(full: int, billed: int, days: int): Result<int, ProrationError> {
    if days <= 0 then Refused(PeriodHasNoDays)
    else if billed < 0 || billed > days then Refused(DaysOutsideThePeriod)
    else Ok(Share(full, billed, days))
  }

  /** What cannot be prorated: a period of no days, and a count of days that the period does not have. */
  lemma WhenProrateRefuses(full: int, billed: int, days: int)
    ensures Prorate(full, billed, days) == Refused(PeriodHasNoDays) <==> days <= 0
    ensures Prorate(full, billed, days) == Refused(DaysOutsideThePeriod) <==> days > 0 && !(0 <= billed <= days)
    ensures Prorate(full, billed, days).Ok? ==>
              var amount := Prorate(full, billed, days).value; amount * days <= full * billed < (amount + 1) * days
  {
    if days > 0 {
      ShareRoundsDown(full, billed, days);
    }
  }

  /** Never above the exact share, and less than one minor unit below it. */
  lemma ShareRoundsDown(full: int, billed: int, days: int)
    requires days > 0
    ensures Share(full, billed, days) * days <= full * billed < (Share(full, billed, days) + 1) * days
  {
    var q, r := (full * billed) / days, (full * billed) % days;
    assert full * billed == q * days + r;
    assert (q + 1) * days == q * days + days;
  }

  /** A positive factor cancels from an inequality. */
  lemma CancelFactor(x: int, y: int, factor: int)
    requires factor > 0 && x * factor < y * factor
    ensures x < y
  {
    assert (y - x) * factor > 0;
  }

  lemma QuotientIsLargest(n: int, q: int, days: int)
    requires days > 0 && q * days <= n < (q + 1) * days
    ensures n / days == q
  {
    var k := n / days;
    assert n == k * days + n % days;
    assert (k + 1) * days == k * days + days;
    CancelFactor(q, k + 1, days);
    CancelFactor(k, q + 1, days);
  }

  /** More days never cost less, and the whole period costs the whole price. */
  lemma ShareIsMonotone(full: int, fewer: int, more: int, days: int)
    requires full >= 0 && days > 0 && 0 <= fewer <= more <= days
    ensures 0 <= Share(full, fewer, days) <= Share(full, more, days) <= Share(full, days, days) == full
    ensures Share(full, 0, days) == 0
  {
    ShareRoundsDown(full, fewer, days);
    ShareRoundsDown(full, more, days);
    QuotientIsLargest(full * days, full, days);
    QuotientIsLargest(0, 0, days);
    assert full * fewer <= full * more <= full * days by {
      MultiplyMonotone(full, fewer, more);
      MultiplyMonotone(full, more, days);
    }
    OrderOfShares(full * 0, full * fewer, days);
    OrderOfShares(full * fewer, full * more, days);
    OrderOfShares(full * more, full * days, days);
  }

  lemma MultiplyMonotone(f: int, x: int, y: int)
    requires f >= 0 && x <= y
    ensures f * x <= f * y
  {}

  lemma OrderOfShares(n: int, m: int, days: int)
    requires n <= m && days > 0
    ensures n / days <= m / days
  {
    var q, k := n / days, m / days;
    assert n == q * days + n % days;
    assert m == k * days + m % days;
    assert (k + 1) * days == k * days + days;
    CancelFactor(q, k + 1, days);
  }

  function Sum(parts: seq<int>): int {
    if parts == [] then 0 else parts[0] + Sum(parts[1..])
  }

  function SumOfShares(full: int, parts: seq<int>, days: int): int
    requires days > 0
  {
    if parts == [] then 0 else Share(full, parts[0], days) + SumOfShares(full, parts[1..], days)
  }

  lemma {:induction false} SharesBracketTheWhole(full: int, parts: seq<int>, days: int)
    requires days > 0
    ensures SumOfShares(full, parts, days) * days <= full * Sum(parts)
    ensures full * Sum(parts) <= SumOfShares(full, parts, days) * days + |parts| * (days - 1)
  {
    if parts != [] {
      var first, rest := Share(full, parts[0], days), SumOfShares(full, parts[1..], days);
      ShareRoundsDown(full, parts[0], days);
      SharesBracketTheWhole(full, parts[1..], days);
      OneMorePart(full, parts[0], Sum(parts[1..]), first, rest, days, |parts[1..]|);
    }
  }

  lemma OneMorePart(full: int, head: int, tail: int, first: int, rest: int, days: int, k: nat)
    requires days > 0
    requires first * days <= full * head < (first + 1) * days
    requires rest * days <= full * tail <= rest * days + k * (days - 1)
    ensures (first + rest) * days <= full * (head + tail) <= (first + rest) * days + (k + 1) * (days - 1)
  {
    assert (first + rest) * days == first * days + rest * days;
    assert full * (head + tail) == full * head + full * tail;
    assert (k + 1) * (days - 1) == k * (days - 1) + (days - 1);
    assert (first + 1) * days == first * days + days;
  }

  /** Splitting a period into k parts never bills more than the whole, and loses fewer than k units. */
  lemma SplittingNeverOverbills(full: int, parts: seq<int>, days: int)
    requires days > 0 && parts != [] && Sum(parts) == days
    ensures full - |parts| < SumOfShares(full, parts, days) <= full
  {
    var s := SumOfShares(full, parts, days);
    SharesBracketTheWhole(full, parts, days);
    assert (full + 1) * days == full * days + days;
    CancelFactor(s, full + 1, days);
    assert (s + |parts|) * days == s * days + |parts| * days;
    assert |parts| * (days - 1) == |parts| * days - |parts|;
    CancelFactor(full, s + |parts|, days);
  }
}
