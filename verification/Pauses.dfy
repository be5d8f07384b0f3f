/** Pauses over paid days: the interval subtraction of `store/records.py` and the refusal of `cycle.py`
    that a save runs on what it leaves. */
module Pauses {
  import opened Calendar
  import opened Agreements
  import opened Cycle

  /** Half-open, like a pause. */
  datatype Range = Range(start: Day, end: Day) {
    predicate Has(day: Day) {
      start <= day < end
    }
  }

  predicate InSome(ranges: seq<Range>, day: Day) {
    exists i :: 0 <= i < |ranges| && ranges[i].Has(day)
  }

  /** None empty, none overlapping, in order. */
  predicate Laid(ranges: seq<Range>) {
    (forall i :: 0 <= i < |ranges| ==> ranges[i].start < ranges[i].end)
    && (forall i, j :: 0 <= i < j < |ranges| ==> ranges[i].end <= ranges[j].start)
  }

  lemma InSomeOfBoth(a: seq<Range>, b: seq<Range>)
    ensures forall day :: InSome(a + b, day) <==> InSome(a, day) || InSome(b, day)
  {
    forall day ensures InSome(a + b, day) <==> InSome(a, day) || InSome(b, day) {
      if i :| 0 <= i < |a| && a[i].Has(day) {
        assert (a + b)[i].Has(day);
      }
      if i :| 0 <= i < |b| && b[i].Has(day) {
        assert (a + b)[|a| + i].Has(day);
      }
    }
  }

  /** What one earlier pause leaves of one range. */
  function Cut(r: Range, prior: Pause): seq<Range> {
    if prior.untilDay <= r.start || prior.fromDay >= r.end then [r]
    else (if r.start < prior.fromDay then [Range(r.start, prior.fromDay)] else [])
         + (if prior.untilDay < r.end then [Range(prior.untilDay, r.end)] else [])
  }

  lemma CutLeaves(r: Range, prior: Pause)
    requires r.start < r.end && prior.fromDay < prior.untilDay
    ensures Laid(Cut(r, prior))
    ensures forall day :: InSome(Cut(r, prior), day) <==> r.Has(day) && !prior.Covers(day)
    ensures forall i :: 0 <= i < |Cut(r, prior)| ==> r.start <= Cut(r, prior)[i].start && Cut(r, prior)[i].end <= r.end
  {
    var cut := Cut(r, prior);
    forall day | r.Has(day) && !prior.Covers(day) ensures InSome(cut, day) {
      assert cut[0].Has(day) || (|cut| > 1 && cut[1].Has(day));
    }
  }

  lemma LaidOneMore(cut: seq<Range>, more: seq<Range>, bound: Day)
    requires Laid(cut) && Laid(more)
    requires forall i :: 0 <= i < |cut| ==> cut[i].end <= bound
    requires forall i :: 0 <= i < |more| ==> bound <= more[i].start
    ensures Laid(cut + more)
  {}

  /** The inner walk of `_days_not_in`: one earlier pause against everything left so far. */
  method CutAll(left: seq<Range>, prior: Pause) returns (cut: seq<Range>)
    requires Laid(left) && prior.fromDay < prior.untilDay
    ensures Laid(cut)
    ensures forall day :: InSome(cut, day) <==> InSome(left, day) && !prior.Covers(day)
  {
    cut := [];
    for j := 0 to |left|
      invariant Laid(cut)
      invariant forall k :: 0 <= k < |cut| ==> j > 0 && cut[k].end <= left[j - 1].end
      invariant forall day :: InSome(cut, day) <==> InSome(left[..j], day) && !prior.Covers(day)
    {
      var start, end := left[j].start, left[j].end;
      ghost var before := cut;
      if prior.untilDay <= start || prior.fromDay >= end {
        cut := cut + [left[j]];
      } else {
        if start < prior.fromDay {
          cut := cut + [Range(start, prior.fromDay)];
        }
        if prior.untilDay < end {
          cut := cut + [Range(prior.untilDay, end)];
        }
      }
      assert cut == before + Cut(left[j], prior);
      CutLeaves(left[j], prior);
      LaidOneMore(before, Cut(left[j], prior), start);
      InSomeOfBoth(before, Cut(left[j], prior));
      OneMoreRange(left, j);
    }
    assert left[..|left|] == left;
  }

  /** `_days_not_in`: the days of a pause that no earlier pause covers, exactly, as ranges that are not empty
      and do not overlap. */
  method DaysNotIn(pause: Pause, earlier: seq<Pause>) returns (left: seq<Range>)
    requires pause.fromDay < pause.untilDay && EachRuns(earlier)
    ensures Laid(left)
    ensures forall day :: InSome(left, day) <==> pause.Covers(day) && !PausedOn(earlier, day)
  {
    left := [Range(pause.fromDay, pause.untilDay)];
    assert forall day :: pause.Covers(day) ==> left[0].Has(day);
    for i := 0 to |earlier|
      invariant Laid(left)
      invariant forall day :: InSome(left, day) <==> pause.Covers(day) && !PausedOn(earlier[..i], day)
    {
      left := CutAll(left, earlier[i]);
      PausedOnOneMore(earlier, i);
    }
    assert earlier[..|earlier|] == earlier;
  }

  lemma OneMoreRange(ranges: seq<Range>, j: nat)
    requires j < |ranges|
    ensures forall day :: InSome(ranges[..j + 1], day) <==> InSome(ranges[..j], day) || ranges[j].Has(day)
  {
    assert ranges[..j + 1] == ranges[..j] + [ranges[j]];
    InSomeOfBoth(ranges[..j], [ranges[j]]);
    assert forall day :: InSome([ranges[j]], day) <==> [ranges[j]][0].Has(day);
  }

  lemma PausedOnOneMore(pauses: seq<Pause>, i: nat)
    requires i < |pauses|
    ensures forall day :: PausedOn(pauses[..i + 1], day) <==> PausedOn(pauses[..i], day) || pauses[i].Covers(day)
  {
    var before, all := pauses[..i], pauses[..i + 1];
    assert all == before + [pauses[i]];
    forall day ensures PausedOn(all, day) <==> PausedOn(before, day) || pauses[i].Covers(day) {
      if PausedOn(before, day) {
        var k :| 0 <= k < |before| && before[k].Covers(day);
        assert all[k].Covers(day);
      }
      assert all[i] == pauses[i];
    }
  }

  // ---------------------------------------------------------------- the refusal

  predicate InPaid(paid: seq<Period>, day: Day) {
    exists i :: 0 <= i < |paid| && paid[i].Contains(day)
  }

  /** Some day of a paid period is paused now and was not before. */
  ghost predicate PausesPaidDays(pauses: seq<Pause>, earlier: seq<Pause>, paid: seq<Period>) {
    exists day :: PausedOn(pauses, day) && !PausedOn(earlier, day) && InPaid(paid, day)
  }

  /** `refuse_pause_over_a_paid_period`: whether the range reaches into a paid period. */
  method OverlapsPaid(r: Range, paid: seq<Period>) returns (refused: bool)
    requires r.start < r.end && (forall i :: 0 <= i < |paid| ==> paid[i].Days() > 0)
    ensures refused <==> exists day :: r.Has(day) && InPaid(paid, day)
  {
    refused := false;
    for i := 0 to |paid|
      invariant forall day :: r.Has(day) ==> !InPaid(paid[..i], day)
    {
      if r.start < paid[i].endDay && r.end > paid[i].startDay {
        var day := if r.start < paid[i].startDay then paid[i].startDay else r.start;
        assert r.Has(day) && paid[i].Contains(day);
        return true;
      }
      forall day | r.Has(day) ensures !InPaid(paid[..i + 1], day) {
        assert !InPaid(paid[..i], day) && !paid[i].Contains(day);
        assert forall k :: 0 <= k < i ==> paid[..i][k] == paid[..i + 1][k];
      }
    }
    assert paid[..|paid|] == paid;
  }

  /** `_refuse_new_pause_days_over_paid_periods`: refused exactly when some newly paused day is in a paid period. */
  method RefuseNewPauseDays(pauses: seq<Pause>, earlier: seq<Pause>, paid: seq<Period>) returns (refused: bool)
    requires EachRuns(pauses) && EachRuns(earlier) && (forall i :: 0 <= i < |paid| ==> paid[i].Days() > 0)
    ensures refused <==> PausesPaidDays(pauses, earlier, paid)
  {
    var newly: seq<Range> := [];
    for i := 0 to |pauses|
      invariant forall k :: 0 <= k < |newly| ==> newly[k].start < newly[k].end
      invariant forall day :: InSome(newly, day) <==> PausedOn(pauses[..i], day) && !PausedOn(earlier, day)
    {
      var left := DaysNotIn(pauses[i], earlier);
      InSomeOfBoth(newly, left);
      PausedOnOneMore(pauses, i);
      newly := newly + left;
    }
    assert pauses[..|pauses|] == pauses;
    refused := false;
    for i := 0 to |newly|
      invariant forall k, day :: 0 <= k < i && newly[k].Has(day) ==> !InPaid(paid, day)
    {
      var overlaps := OverlapsPaid(newly[i], paid);
      if overlaps {
        var day :| newly[i].Has(day) && InPaid(paid, day);
        assert InSome(newly, day);
        return true;
      }
    }
    forall day | PausedOn(pauses, day) && !PausedOn(earlier, day) ensures !InPaid(paid, day) {
      assert InSome(newly, day);
    }
  }
}
