/** The charge log of `charging.py`, in recorded order, and the two readings of it: how many attempts
    count against the payment method, and where one attempt stands. */
module ChargeLog {
  import opened Options

  /** An attempt id: the idempotency key the processor is handed. */
  type Key = int

  datatype Outcome = Success | Decline | Error
  datatype Kind = Attempt | Unknown | Ask | OutcomeRow | Late | MethodChanged
  datatype Recorder = Worker | Operator

  /** One row. `amount` is what an attempt reserved and zero elsewhere; `recordedBy` is who recorded the row. */
  datatype Row = Row(kind: Kind, key: Option<Key>, outcome: Option<Outcome>, amount: int, recordedBy: Recorder)

  const MAX_ATTEMPTS := 3

  datatype RetryState = RetryState(attempts: nat, lastOutcome: Option<Outcome>) {
    predicate Exhausted() {
      attempts >= MAX_ATTEMPTS
    }

    /** Only a failure is counted; a success leaves the count where it is. */
    function AfterAttempt(o: Outcome): RetryState {
      if o.Success? then this.(lastOutcome := Some(o)) else RetryState(attempts + 1, Some(o))
    }
  }

  // ---------------------------------------------------------------- the retry fold

  /** The position of the last method change, or -1. */
  function LastChange(rows: seq<Row>): (i: int)
    ensures -1 <= i < |rows|
    ensures forall j :: i < j < |rows| ==> !rows[j].kind.MethodChanged?
    ensures i >= 0 ==> rows[i].kind.MethodChanged?
  {
    if rows == [] then -1
    else if rows[|rows| - 1].kind.MethodChanged? then |rows| - 1
    else LastChange(rows[..|rows| - 1])
  }

  predicate IsReservation(r: Row) {
    r.kind.Attempt? && r.key.Some?
  }

  /** Whether the log has said anything about which method an attempt was reserved under. */
  predicate Dated(rows: seq<Row>) {
    exists i :: 0 <= i < |rows| && (rows[i].kind.MethodChanged? || IsReservation(rows[i]))
  }

  /** The attempts reserved under the current method. */
  function ReservedSinceChange(rows: seq<Row>): set<Key> {
    set i | LastChange(rows) < i < |rows| && IsReservation(rows[i]) :: rows[i].key.value
  }

  /** Whether the outcome at `j` is one the fold takes: recorded since the last change and, where it names an
      attempt in a log that dates them, reserved since then too. */
  predicate Applies(rows: seq<Row>, j: int)
    requires 0 <= j < |rows|
  {
    rows[j].kind.OutcomeRow? && rows[j].outcome.Some? && LastChange(rows) < j
    && (rows[j].key.None? || !Dated(rows[..j]) || rows[j].key.value in ReservedSinceChange(rows[..j]))
  }

  /** The non-success outcomes that count against the current payment method. */
  function Counted(rows: seq<Row>): set<int> {
    set j | 0 <= j < |rows| && Applies(rows, j) && !rows[j].outcome.value.Success?
  }

  /** The outcome of the last row the fold takes, if it takes any since the last change. */
  function LastOutcome(rows: seq<Row>): Option<Outcome> {
    if rows == [] || rows[|rows| - 1].kind.MethodChanged? then None
    else if Applies(rows, |rows| - 1) then rows[|rows| - 1].outcome
    else LastOutcome(rows[..|rows| - 1])
  }

  /** `retry_state_from_rows`: one walk, carrying the state and the keys reserved since the last change. */
  method RetryStateFromRows(rows: seq<Row>) returns (state: RetryState)
    ensures state == RetryState(|Counted(rows)|, LastOutcome(rows))
  {
    state := RetryState(0, None);
    var reserved: Option<set<Key>> := None;
    for i := 0 to |rows|
      invariant state == RetryState(|Counted(rows[..i])|, LastOutcome(rows[..i]))
      invariant reserved == if Dated(rows[..i]) then Some(ReservedSinceChange(rows[..i])) else None
    {
      var row := rows[i];
      OneMoreRow(rows[..i], row);
      assert rows[..i + 1] == rows[..i] + [row];
      if row.kind.MethodChanged? {
        state := RetryState(0, None);
        reserved := Some({});
      } else if row.kind.Attempt? && row.key.Some? {
        reserved := Some((if reserved.Some? then reserved.value else {}) + {row.key.value});
      } else if row.kind.OutcomeRow? && row.outcome.Some? {
        if !(row.key.Some? && reserved.Some? && row.key.value !in reserved.value) {
          state := state.AfterAttempt(row.outcome.value);
        }
      }
    }
    assert rows[..|rows|] == rows;
  }

  /** Whether the fold takes a row recorded after `rows`. */
  predicate AppliesNext(rows: seq<Row>, r: Row) {
    r.kind.OutcomeRow? && r.outcome.Some?
    && (r.key.None? || !Dated(rows) || r.key.value in ReservedSinceChange(rows))
  }

  /** What one more row does to each reading of the log. */
  lemma OneMoreRow(rows: seq<Row>, r: Row)
    ensures Dated(rows + [r]) == (Dated(rows) || r.kind.MethodChanged? || IsReservation(r))
    ensures Dated(rows) || ReservedSinceChange(rows) == {}
    ensures ReservedSinceChange(rows + [r]) == (if r.kind.MethodChanged? then {} else
              ReservedSinceChange(rows) + (if IsReservation(r) then {r.key.value} else {}))
    ensures |Counted(rows + [r])| == (if r.kind.MethodChanged? then 0 else
              |Counted(rows)| + (if AppliesNext(rows, r) && !r.outcome.value.Success? then 1 else 0))
    ensures LastOutcome(rows + [r]) == (if r.kind.MethodChanged? then None else
              if AppliesNext(rows, r) then r.outcome else LastOutcome(rows))
  {
    var all := rows + [r];
    assert all[..|rows|] == rows;
    DatedStep(rows, r);
    CountedStep(rows, r);
    if !r.kind.MethodChanged? {
      ReservedStep(rows, r);
    }
  }

  lemma CountedStep(rows: seq<Row>, r: Row)
    ensures |Counted(rows + [r])| == (if r.kind.MethodChanged? then 0 else
              |Counted(rows)| + (if AppliesNext(rows, r) && !r.outcome.value.Success? then 1 else 0))
  {
    var all := rows + [r];
    assert all[..|rows|] == rows;
    if r.kind.MethodChanged? {
      assert Counted(all) == {};
    } else {
      assert LastChange(all) == LastChange(rows);
      forall j | 0 <= j < |rows| ensures Applies(all, j) <==> Applies(rows, j) {
        assert all[..j] == rows[..j];
      }
      assert Counted(all) == Counted(rows)
        + (if AppliesNext(rows, r) && !r.outcome.value.Success? then {|rows|} else {});
      assert |rows| !in Counted(rows);
    }
  }

  lemma DatedStep(rows: seq<Row>, r: Row)
    ensures Dated(rows + [r]) == (Dated(rows) || r.kind.MethodChanged? || IsReservation(r))
  {
    var all := rows + [r];
    if Dated(rows) {
      var i :| 0 <= i < |rows| && (rows[i].kind.MethodChanged? || IsReservation(rows[i]));
      assert all[i] == rows[i];
    }
    assert all[|rows|] == r;
  }

  lemma ReservedStep(rows: seq<Row>, r: Row)
    requires !r.kind.MethodChanged?
    ensures ReservedSinceChange(rows + [r])
            == ReservedSinceChange(rows) + (if IsReservation(r) then {r.key.value} else {})
  {
    var all := rows + [r];
    assert all[..|rows|] == rows;
    assert LastChange(all) == LastChange(rows);
    forall k | k in ReservedSinceChange(rows) ensures k in ReservedSinceChange(all) {
      var i :| LastChange(rows) < i < |rows| && IsReservation(rows[i]) && rows[i].key.value == k;
      assert all[i] == rows[i];
    }
    if IsReservation(r) {
      assert all[|rows|] == r;
    }
  }

  /** In a log whose outcomes name attempts recorded before them, once each. */
  predicate OutcomesFollowAttempts(rows: seq<Row>) {
    (forall j :: 0 <= j < |rows| && rows[j].kind.OutcomeRow? ==>
       rows[j].outcome.Some? && exists i :: 0 <= i < j && IsReservation(rows[i]) && rows[i].key == rows[j].key)
    && (forall i, j :: 0 <= i < j < |rows| && IsReservation(rows[i]) && IsReservation(rows[j]) ==>
                         rows[i].key != rows[j].key)
  }

  /** A non-success outcome whose reservation lies after the last method change. */
  predicate ReservedUnderCurrentMethod(rows: seq<Row>, j: int)
    requires 0 <= j < |rows|
  {
    exists i :: LastChange(rows) < i < |rows| && IsReservation(rows[i]) && rows[i].key == rows[j].key
  }

  lemma AppliesByReservation(rows: seq<Row>, j: int)
    requires OutcomesFollowAttempts(rows) && 0 <= j < |rows| && rows[j].kind.OutcomeRow?
    ensures Applies(rows, j) <==> ReservedUnderCurrentMethod(rows, j)
  {
    var i :| 0 <= i < j && IsReservation(rows[i]) && rows[i].key == rows[j].key;
    var before := rows[..j];
    assert before[i] == rows[i] && Dated(before);
    if LastChange(rows) < j {
      assert LastChange(before) == LastChange(rows) by {
        SameLastChange(rows, j);
      }
      if i > LastChange(rows) {
        assert rows[j].key.value in ReservedSinceChange(before);
      }
    }
  }

  /** The fold's count, without the walk: the non-success outcomes whose reservation lies after the last
      method change, whatever unknown, ask and late rows stand between them and whenever they were recorded. */
  lemma FoldCountsByReservation(rows: seq<Row>)
    requires OutcomesFollowAttempts(rows)
    ensures Counted(rows) == set j | 0 <= j < |rows| && rows[j].kind.OutcomeRow? && !rows[j].outcome.value.Success?
                                     && ReservedUnderCurrentMethod(rows, j)
  {
    forall j | 0 <= j < |rows| && rows[j].kind.OutcomeRow?
      ensures Applies(rows, j) <==> ReservedUnderCurrentMethod(rows, j)
    {
      AppliesByReservation(rows, j);
    }
  }

  /** The last outcome that applies, at `j`. */
  predicate IsLastApplying(rows: seq<Row>, j: int) {
    0 <= j < |rows| && Applies(rows, j) && forall later :: j < later < |rows| ==> !Applies(rows, later)
  }

  lemma {:induction false} LastOutcomeIs(rows: seq<Row>)
    ensures match LastOutcome(rows)
            case None => forall j :: 0 <= j < |rows| ==> !Applies(rows, j)
            case Some(o) => exists j :: IsLastApplying(rows, j) && rows[j].outcome == Some(o)
  {
    if rows != [] {
      var front, last := rows[..|rows| - 1], |rows| - 1;
      LastOutcomeIs(front);
      forall j | 0 <= j < last && !rows[last].kind.MethodChanged? ensures Applies(rows, j) <==> Applies(front, j) {
        assert rows[..j] == front[..j] && LastChange(rows) == LastChange(front);
      }
      if rows[last].kind.MethodChanged? {
        assert LastChange(rows) == last;
      } else if Applies(rows, last) {
        assert IsLastApplying(rows, last);
      } else if LastOutcome(front).Some? {
        var j :| IsLastApplying(front, j) && front[j].outcome == LastOutcome(front);
        assert IsLastApplying(rows, j);
      }
    }
  }

  /** And so of the last outcome: it is that of the last outcome row whose reservation lies after the last method
      change, and there is none where no such row is. */
  lemma LastOutcomeByReservation(rows: seq<Row>)
    requires OutcomesFollowAttempts(rows)
    ensures LastOutcome(rows).None? ==>
              forall j :: 0 <= j < |rows| && rows[j].kind == OutcomeRow ==> !ReservedUnderCurrentMethod(rows, j)
    ensures LastOutcome(rows).Some? ==>
              exists j :: 0 <= j < |rows| && rows[j].kind == OutcomeRow && ReservedUnderCurrentMethod(rows, j)
                          && rows[j].outcome == LastOutcome(rows)
                          && forall later :: j < later < |rows| && rows[later].kind == OutcomeRow ==>
                                               !ReservedUnderCurrentMethod(rows, later)
  {
    hide ReservedUnderCurrentMethod, Applies, OutcomesFollowAttempts, LastOutcome;
    LastOutcomeIs(rows);
    forall j | 0 <= j < |rows| && rows[j].kind.OutcomeRow?
      ensures Applies(rows, j) <==> ReservedUnderCurrentMethod(rows, j)
    {
      AppliesByReservation(rows, j);
    }
    if LastOutcome(rows).Some? {
      var j :| IsLastApplying(rows, j) && rows[j].outcome == LastOutcome(rows);
      AppliesToOutcomes(rows, j);
    }
  }

  lemma AppliesToOutcomes(rows: seq<Row>, j: int)
    requires 0 <= j < |rows| && Applies(rows, j)
    ensures rows[j].kind.OutcomeRow?
  {}

  lemma {:induction false} SameLastChange(rows: seq<Row>, j: int)
    requires LastChange(rows) < j <= |rows|
    ensures LastChange(rows[..j]) == LastChange(rows)
  {
    var l := LastChange(rows[..j]);
    if l >= 0 {
      assert rows[l].kind.MethodChanged?;
    }
    if LastChange(rows) >= 0 {
      assert rows[..j][LastChange(rows)].kind.MethodChanged?;
    }
  }
}
