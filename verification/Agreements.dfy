/** The agreement of `agreement.py`: the fields the properties read, and what its constructor refuses. */
module Agreements {
  import opened Calendar
  import opened Garages
  import opened Options

  type AgreementId = int
  type PayerId = int

  /** Half-open: `fromDay` is paused, `untilDay` is not. */
  datatype Pause = Pause(fromDay: Day, untilDay: Day) {
    predicate Covers(day: Day) {
      fromDay <= day < untilDay
    }
  }

  datatype Registrar = ThisModule | Outside
  datatype Status = Active | Cancelled
  datatype Cadence = Recurring | OneTime
  datatype Fee = Fee(name: int, amount: int, cadence: Cadence, effectiveFrom: Day)

  /** Two times of the local day: a stay may begin from the one and must be over by the other. */
  datatype AccessHours = AccessHours(entryFrom: int, exitBy: int)

  datatype Agreement = Agreement(
    id: AgreementId, version: int, garage: GarageId, payer: PayerId, spots: int, vehicles: seq<string>,
    price: int, startDay: Day, covered: seq<GarageId>, mandate: bool, status: Status,
    cancelledDay: Option<Day>, hours: Option<AccessHours>, pauses: seq<Pause>, fees: seq<Fee>,
    registrar: Registrar)
  {
    predicate IsPausedOn(day: Day) {
      PausedOn(pauses, day)
    }

    predicate CoversGarage(g: GarageId) {
      g in covered
    }
  }

  predicate PausedOn(pauses: seq<Pause>, day: Day) {
    exists i :: 0 <= i < |pauses| && pauses[i].Covers(day)
  }

  predicate NoRepeats<T(==)>(s: seq<T>) {
    forall i, j :: 0 <= i < j < |s| ==> s[i] != s[j]
  }

  /** What `Agreement.__post_init__` accepts. */
  predicate Accepted(a: Agreement) {
    a.version >= 1 && a.spots >= 1 && a.price >= 0
    && (a.registrar.ThisModule? <==> a.vehicles != [])
    && (forall i :: 0 <= i < |a.vehicles| ==> !IsBlank(a.vehicles[i]))
    && NoRepeats(a.vehicles)
    && NoRepeats(a.covered) && a.garage in a.covered
    && (a.status.Cancelled? <==> a.cancelledDay.Some?)
    && PausesAccepted(a.pauses)
    && (forall i :: 0 <= i < |a.fees| ==> a.fees[i].amount >= 0)
    && FeesNamedApart(a.fees)
  }

  predicate FeesNamedApart(fees: seq<Fee>) {
    forall i, j :: 0 <= i < j < |fees| ==> fees[i].name != fees[j].name
  }

  // ---------------------------------------------------------------- pauses do not overlap

  predicate EachRuns(pauses: seq<Pause>) {
    forall i :: 0 <= i < |pauses| ==> pauses[i].fromDay < pauses[i].untilDay
  }

  function InsertByFrom(p: Pause, sorted: seq<Pause>): seq<Pause> {
    if sorted == [] || p.fromDay <= sorted[0].fromDay then [p] + sorted
    else [sorted[0]] + InsertByFrom(p, sorted[1..])
  }

  function SortByFrom(pauses: seq<Pause>): seq<Pause> {
    if pauses == [] then [] else InsertByFrom(pauses[0], SortByFrom(pauses[1..]))
  }

  /** The constructor's walk: each pause against its successor in order of first day. */
  predicate NeighboursApart(sorted: seq<Pause>) {
    forall i :: 0 <= i < |sorted| - 1 ==> sorted[i].untilDay <= sorted[i + 1].fromDay
  }

  predicate PausesAccepted(pauses: seq<Pause>) {
    EachRuns(pauses) && NeighboursApart(SortByFrom(pauses))
  }

  predicate Apart(p: Pause, q: Pause) {
    p.untilDay <= q.fromDay || q.untilDay <= p.fromDay
  }

  predicate ApartFromAll(p: Pause, rest: seq<Pause>) {
    forall q :: q in rest ==> Apart(p, q)
  }

  predicate PairwiseApart(pauses: seq<Pause>) {
    pauses == [] || (ApartFromAll(pauses[0], pauses[1..]) && PairwiseApart(pauses[1..]))
  }

  predicate AscendsByFrom(sorted: seq<Pause>) {
    forall i, j :: 0 <= i < j < |sorted| ==> sorted[i].fromDay <= sorted[j].fromDay
  }

  lemma {:induction false} InsertKeepsMembers(p: Pause, sorted: seq<Pause>)
    ensures forall q :: q in InsertByFrom(p, sorted) <==> q == p || q in sorted
  {
    if sorted != [] && sorted[0].fromDay < p.fromDay {
      InsertKeepsMembers(p, sorted[1..]);
      assert sorted == [sorted[0]] + sorted[1..];
    }
  }

  lemma {:induction false} InsertAscends(p: Pause, sorted: seq<Pause>)
    requires AscendsByFrom(sorted)
    ensures AscendsByFrom(InsertByFrom(p, sorted))
  {
    if sorted != [] && sorted[0].fromDay < p.fromDay {
      InsertAscends(p, sorted[1..]);
      InsertKeepsMembers(p, sorted[1..]);
      var rest := InsertByFrom(p, sorted[1..]);
      forall j | 0 <= j < |rest| ensures sorted[0].fromDay <= rest[j].fromDay {
        assert rest[j] in rest;
      }
    }
  }

  lemma {:induction false} InsertKeepsApart(p: Pause, sorted: seq<Pause>)
    ensures PairwiseApart(InsertByFrom(p, sorted)) <==> ApartFromAll(p, sorted) && PairwiseApart(sorted)
  {
    if sorted == [] || p.fromDay <= sorted[0].fromDay {
      assert ([p] + sorted)[1..] == sorted;
    } else {
      var rest := InsertByFrom(p, sorted[1..]);
      InsertKeepsApart(p, sorted[1..]);
      InsertKeepsMembers(p, sorted[1..]);
      assert ([sorted[0]] + rest)[1..] == rest;
      assert sorted == [sorted[0]] + sorted[1..];
      assert sorted[0] in sorted;
      assert p in rest;
    }
  }

  lemma {:induction false} SortKeepsWhatMatters(pauses: seq<Pause>)
    requires EachRuns(pauses)
    ensures AscendsByFrom(SortByFrom(pauses)) && EachRuns(SortByFrom(pauses))
    ensures forall q :: q in SortByFrom(pauses) <==> q in pauses
    ensures PairwiseApart(SortByFrom(pauses)) <==> PairwiseApart(pauses)
  {
    if pauses != [] {
      var sorted := SortByFrom(pauses[1..]);
      SortKeepsWhatMatters(pauses[1..]);
      InsertAscends(pauses[0], sorted);
      InsertKeepsApart(pauses[0], sorted);
      InsertKeepsMembers(pauses[0], sorted);
      assert pauses == [pauses[0]] + pauses[1..];
      var all := SortByFrom(pauses);
      forall i | 0 <= i < |all| ensures all[i].fromDay < all[i].untilDay {
        assert all[i] in all;
      }
    }
  }

  lemma {:induction false} SortedNeighboursSuffice(sorted: seq<Pause>)
    requires AscendsByFrom(sorted) && EachRuns(sorted)
    ensures NeighboursApart(sorted) <==> PairwiseApart(sorted)
  {
    if |sorted| > 1 {
      var rest := sorted[1..];
      SortedNeighboursSuffice(rest);
      if NeighboursApart(sorted) {
        assert NeighboursApart(rest) by {
          forall i | 0 <= i < |rest| - 1 ensures rest[i].untilDay <= rest[i + 1].fromDay {
            assert sorted[i + 1].untilDay <= sorted[i + 2].fromDay;
          }
        }
        forall q | q in rest ensures Apart(sorted[0], q) {
          assert sorted[0].untilDay <= sorted[1].fromDay;
        }
      }
      if PairwiseApart(sorted) {
        assert sorted[1] in rest;
        assert Apart(sorted[0], sorted[1]);
        forall i | 0 <= i < |sorted| - 1 ensures sorted[i].untilDay <= sorted[i + 1].fromDay {
          if i > 0 {
            assert rest[i - 1].untilDay <= rest[i].fromDay;
          }
        }
      }
    }
  }

  /** The one walk over neighbours in order refuses exactly the lists in which some two pauses overlap. */
  lemma PausesAcceptedIffDisjoint(pauses: seq<Pause>)
    ensures PausesAccepted(pauses) <==> EachRuns(pauses) && PairwiseApart(pauses)
  {
    if EachRuns(pauses) {
      SortKeepsWhatMatters(pauses);
      SortedNeighboursSuffice(SortByFrom(pauses));
    }
  }

  lemma {:induction false} ApartPausesShareNoDay(pauses: seq<Pause>, i: nat, j: nat, day: Day)
    requires PairwiseApart(pauses) && i < j < |pauses|
    ensures !(pauses[i].Covers(day) && pauses[j].Covers(day))
  {
    if i == 0 {
      assert pauses[j] == pauses[1..][j - 1] && pauses[j] in pauses[1..];
    } else {
      ApartPausesShareNoDay(pauses[1..], i - 1, j - 1, day);
    }
  }

  lemma {:induction false} PairwiseApartIs(pauses: seq<Pause>)
    ensures PairwiseApart(pauses)
            <==> forall i, j :: 0 <= i < j < |pauses| ==>
                   pauses[i].untilDay <= pauses[j].fromDay || pauses[j].untilDay <= pauses[i].fromDay
  {
    if pauses != [] {
      var rest := pauses[1..];
      PairwiseApartIs(rest);
      assert forall j :: 0 <= j < |rest| ==> rest[j] == pauses[j + 1];
      if PairwiseApart(pauses) {
        forall i, j | 0 <= i < j < |pauses|
          ensures pauses[i].untilDay <= pauses[j].fromDay || pauses[j].untilDay <= pauses[i].fromDay
        {
          if i == 0 {
            assert pauses[j] == rest[j - 1] && rest[j - 1] in rest;
            assert Apart(pauses[0], rest[j - 1]);
          } else {
            assert rest[i - 1].untilDay <= rest[j - 1].fromDay || rest[j - 1].untilDay <= rest[i - 1].fromDay;
          }
        }
      } else if PairwiseApart(rest) {
        var q :| q in rest && !Apart(pauses[0], q);
        var j :| 0 <= j < |rest| && rest[j] == q;
        assert pauses[0].untilDay > pauses[j + 1].fromDay && pauses[j + 1].untilDay > pauses[0].fromDay;
      } else {
        var i, j :| 0 <= i < j < |rest| && rest[i].untilDay > rest[j].fromDay && rest[j].untilDay > rest[i].fromDay;
        assert pauses[i + 1].untilDay > pauses[j + 1].fromDay && pauses[j + 1].untilDay > pauses[i + 1].fromDay;
      }
    }
  }

  /** What the constructor takes: counts and amounts as they can be; vehicles exactly where this module registers them,
      none blank and none twice; the home among the garages covered, each once; a day of cancellation exactly where it
      is cancelled; pauses that last and do not overlap; fees of different names. */
  lemma WhatTheConstructorTakes(a: Agreement)
    ensures Accepted(a)
            <==> a.version >= 1 && a.spots >= 1 && a.price >= 0
                 && (a.registrar == ThisModule <==> |a.vehicles| > 0)
                 && (forall text :: text in a.vehicles ==> Normalise(Exact, text).Some?)
                 && (forall i, j :: 0 <= i < j < |a.vehicles| ==> a.vehicles[i] != a.vehicles[j])
                 && (forall i, j :: 0 <= i < j < |a.covered| ==> a.covered[i] != a.covered[j])
                 && (exists i :: 0 <= i < |a.covered| && a.covered[i] == a.garage)
                 && (a.status == Cancelled <==> a.cancelledDay.Some?)
                 && (forall i :: 0 <= i < |a.pauses| ==> a.pauses[i].fromDay < a.pauses[i].untilDay)
                 && (forall i, j :: 0 <= i < j < |a.pauses| ==>
                       a.pauses[i].untilDay <= a.pauses[j].fromDay || a.pauses[j].untilDay <= a.pauses[i].fromDay)
                 && (forall i :: 0 <= i < |a.fees| ==> a.fees[i].amount >= 0)
                 && (forall i, j :: 0 <= i < j < |a.fees| ==> a.fees[i].name != a.fees[j].name)
  {
    hide PausesAccepted, PairwiseApart, IsBlank;
    PausesAcceptedIffDisjoint(a.pauses);
    PairwiseApartIs(a.pauses);
    forall text: string ensures Normalise(Exact, text).Some? <==> !IsBlank(text) {}
    forall i | 0 <= i < |a.vehicles| ensures a.vehicles[i] in a.vehicles {}
    assert (forall text :: text in a.vehicles ==> Normalise(Exact, text).Some?)
           <==> forall i :: 0 <= i < |a.vehicles| ==> !IsBlank(a.vehicles[i]);
    assert a.garage in a.covered <==> exists i :: 0 <= i < |a.covered| && a.covered[i] == a.garage;
  }
}
