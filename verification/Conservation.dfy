/** Where the money is: what a truthful processor has moved for an invoice against the card payments recorded, in
    every reachable state of the charge protocol of `charging.py`, and how much it may have moved at most. */
module Conservation {
  import opened Garages
  import opened Agreements
  import opened Lines
  import opened Taxes
  import opened ChargeLog
  import opened Ledger
  import opened Charging
  import opened Processor
  import opened Options

  // ---------------------------------------------------------------- conservation

  /** What the attempts among `keys` reserved. */
  function ReservedUnder(log: seq<Row>, keys: set<Key>): int {
    if log == [] then 0
    else
      var last := log[|log| - 1];
      ReservedUnder(log[..|log| - 1], keys) + (if IsReservation(last) && last.key.value in keys then last.amount else 0)
  }

  function MovedKeys(w: World): set<Key> {
    set k | k in w.decided && w.decided[k]
  }

  /** All the money the processor has moved for this invoice. */
  function MovedMinor(w: World): int {
    ReservedUnder(w.books.log, MovedKeys(w))
  }

  /** All the card payments ever recorded, reversed or not. */
  function CardMinor(payments: seq<Payment>): int {
    if payments == [] then 0
    else CardMinor(payments[..|payments| - 1])
         + (if payments[|payments| - 1].attempt.Some? then payments[|payments| - 1].amount else 0)
  }

  function PaidKeys(payments: seq<Payment>): set<Key> {
    set i | 0 <= i < |payments| && payments[i].attempt.Some? :: payments[i].attempt.value
  }

  lemma {:induction false} OneMoreKey(log: seq<Row>, keys: set<Key>, k: Key)
    requires k !in keys && !StageOf(log, k).Broken?
    ensures ReservedUnder(log, keys + {k})
            == ReservedUnder(log, keys) + (if Reserved(log, k).Some? then Reserved(log, k).value else 0)
  {
    if log != [] {
      var front, r := log[..|log| - 1], log[|log| - 1];
      OneMoreKey(front, keys, k);
      Readings(front, k);
    }
  }

  lemma {:induction false} NoKeys(log: seq<Row>)
    ensures ReservedUnder(log, {}) == 0
  {
    if log != [] {
      NoKeys(log[..|log| - 1]);
    }
  }

  lemma {:induction false} CardsCountKeys(payments: seq<Payment>, k: Key)
    ensures Cards(payments, k) > 0 <==> k in PaidKeys(payments)
  {
    if payments != [] {
      var front, last := payments[..|payments| - 1], payments[|payments| - 1];
      CardsCountKeys(front, k);
      assert payments == front + [last];
      assert PaidKeys(payments) == PaidKeys(front) + (if last.attempt.Some? then {last.attempt.value} else {});
    }
  }

  /** The card payments come to what their attempts reserved, each once. */
  lemma {:induction false} CardsAreReservations(log: seq<Row>, payments: seq<Payment>)
    requires forall k: Key :: !StageOf(log, k).Broken? && Cards(payments, k) <= 1
    requires forall i :: 0 <= i < |payments| && payments[i].attempt.Some? ==>
                           Reserved(log, payments[i].attempt.value) == Some(payments[i].amount)
    ensures CardMinor(payments) == ReservedUnder(log, PaidKeys(payments))
  {
    if payments == [] {
      NoKeys(log);
      assert PaidKeys(payments) == {};
    } else {
      var front, last := payments[..|payments| - 1], payments[|payments| - 1];
      assert payments == front + [last];
      forall k: Key ensures Cards(front, k) <= Cards(payments, k) {}
      CardsAreReservations(log, front);
      if last.attempt.Some? {
        assert PaidKeys(payments) == PaidKeys(front) + {last.attempt.value};
        assert Cards(payments, last.attempt.value) == Cards(front, last.attempt.value) + 1;
        CardsCountKeys(front, last.attempt.value);
        OneMoreKey(log, PaidKeys(front), last.attempt.value);
      } else {
        assert PaidKeys(payments) == PaidKeys(front);
      }
    }
  }

  /** The keys that moved money are the paid ones, and the open one if it has. */
  lemma MovedOrPaid(w: World, k: Key)
    requires Safe(w) && Agreed(w)
    ensures Moved(w, k) <==> k in PaidKeys(w.books.payments) || (Open(w.books.log, k) && Moved(w, k))
    ensures k in PaidKeys(w.books.payments) ==> !Open(w.books.log, k)
  {
    Readings(w.books.log, k);
    CardsCountKeys(w.books.payments, k);
  }

  /** With nothing moved under any open attempt but `k`. */
  lemma MovedKeysAre(w: World, k: Key)
    requires Safe(w) && Agreed(w) && (forall j: Key :: Open(w.books.log, j) && Moved(w, j) ==> j == k)
    ensures MovedKeys(w) == PaidKeys(w.books.payments) + (if Open(w.books.log, k) && Moved(w, k) then {k} else {})
    ensures Open(w.books.log, k) ==> k !in PaidKeys(w.books.payments) && Reserved(w.books.log, k).Some?
    ensures CardMinor(w.books.payments) == ReservedUnder(w.books.log, PaidKeys(w.books.payments))
  {
    hide PaidKeys, ReservedUnder, CardMinor, Reserved, StageOf;
    CardsAreReservations(w.books.log, w.books.payments);
    forall j: Key
      ensures j in MovedKeys(w) <==> j in PaidKeys(w.books.payments) || (j == k && Open(w.books.log, k) && Moved(w, k))
    {
      MovedOrPaid(w, j);
    }
    MovedOrPaid(w, k);
    Readings(w.books.log, k);
  }

  lemma ConservedNow(w: World, k: Key)
    requires Safe(w) && Agreed(w)
    ensures Open(w.books.log, k) && Moved(w, k) ==>
              Reserved(w.books.log, k).Some?
              && MovedMinor(w) == CardMinor(w.books.payments) + Reserved(w.books.log, k).value
    ensures (forall j: Key :: Open(w.books.log, j) ==> !Moved(w, j)) ==> MovedMinor(w) == CardMinor(w.books.payments)
  {
    hide MovedKeys, PaidKeys, ReservedUnder, CardMinor, StageOf, Reserved, SaysSuccess, Cards, Counted,
         ReservedSinceChange;
    if (Open(w.books.log, k) && Moved(w, k)) || (forall j: Key :: Open(w.books.log, j) ==> !Moved(w, j)) {
      MovedKeysAre(w, k);
      if Open(w.books.log, k) && Moved(w, k) {
        OneMoreKey(w.books.log, PaidKeys(w.books.payments), k);
      } else {
        assert PaidKeys(w.books.payments) + {} == PaidKeys(w.books.payments);
      }
    }
  }

  /** With an operator who agrees, what the processor has moved is what the card payments record, but for an open
      attempt under which money has moved and whose answer is still to come. */
  lemma AgreedMoneyIsConserved(engine: Engine, issued: Books, actions: seq<Action>, k: Key)
    requires Fresh(issued) && AgreeingRun(engine, issued, actions)
    ensures var w := Reach(engine, issued, actions);
            (Open(w.books.log, k) && Moved(w, k) ==>
               Reserved(w.books.log, k).Some?
               && MovedMinor(w) == CardMinor(w.books.payments) + Reserved(w.books.log, k).value)
            && ((forall j: Key :: Open(w.books.log, j) ==> !Moved(w, j)) ==>
                  MovedMinor(w) == CardMinor(w.books.payments))
  {
    hide MovedMinor, CardMinor, StageOf, Reserved, Do, Safe, Agreed;
    AgreeingRunsAreAgreed(engine, issued, actions);
    ConservedNow(Reach(engine, issued, actions), k);
  }

  lemma {:induction false} ReservedUnderBoth(log: seq<Row>, s: set<Key>, t: set<Key>)
    requires s !! t
    ensures ReservedUnder(log, s + t) == ReservedUnder(log, s) + ReservedUnder(log, t)
  {
    if log != [] {
      ReservedUnderBoth(log[..|log| - 1], s, t);
    }
  }

  /** Nothing is lost and nothing invented, whatever the operator types: what the processor has moved and what the
      cards have recorded differ by what is recorded and has not moved, which the operator affirmed, and by what
      has moved and is not recorded, which is open or denied by the operator with no answer since. */
  lemma MoneyIsConserved(engine: Engine, issued: Books, actions: seq<Action>)
    requires Fresh(issued) && TruthfulRun(engine, issued, actions)
    ensures var w := Reach(engine, issued, actions);
            var log, moved, paid := w.books.log, MovedKeys(w), PaidKeys(w.books.payments);
            MovedMinor(w) + ReservedUnder(log, paid - moved)
            == CardMinor(w.books.payments) + ReservedUnder(log, moved - paid)
            && (forall k :: k in paid - moved ==> OperatorAffirmed(log, k))
            && (forall k :: k in moved - paid ==> Open(log, k) || OperatorDenied(log, k))
  {
    hide Do, StageOf, Reserved, OperatorAffirmed, OperatorDenied, ReservedUnder, CardMinor, SaysSuccess, Cards;
    TruthfulRunsAreTold(engine, issued, actions);
    var w := Reach(engine, issued, actions);
    var log, moved, paid := w.books.log, MovedKeys(w), PaidKeys(w.books.payments);
    CardsAreReservations(log, w.books.payments);
    ReservedUnderBoth(log, moved, paid - moved);
    ReservedUnderBoth(log, paid, moved - paid);
    assert moved + (paid - moved) == paid + (moved - paid);
    forall k | k in paid - moved ensures OperatorAffirmed(log, k) {
      CardsCountKeys(w.books.payments, k);
    }
    forall k | k in moved - paid ensures Open(log, k) || OperatorDenied(log, k) {
      CardsCountKeys(w.books.payments, k);
      MovedButUnpaid(engine, issued, actions, k);
    }
  }

  // ---------------------------------------------------------------- how much may have moved at most

  /** The highest total the invoice has had. */
  function HighestTotal(engine: Engine, issued: Books, actions: seq<Action>): int {
    var now := TotalMinor(Reach(engine, issued, actions).books.lines);
    if actions == [] then now
    else
      var earlier := HighestTotal(engine, issued, actions[..|actions| - 1]);
      if now > earlier then now else earlier
  }

  /** The card payments taken back. */
  function ReversedCardMinor(payments: seq<Payment>, reversals: map<nat, Instant>): int {
    if payments == [] then 0
    else
      var last := |payments| - 1;
      ReversedCardMinor(payments[..last], reversals)
      + (if payments[last].attempt.Some? && last in reversals then payments[last].amount else 0)
  }

  /** The keys on which the operator has typed a non-success. */
  function DeniedKeys(log: seq<Row>): set<Key> {
    set i | 0 <= i < |log| && log[i].key.Some? && DeniedBy(log[i], log[i].key.value) :: log[i].key.value
  }

  lemma DeniedKeysAre(log: seq<Row>, k: Key)
    ensures k in DeniedKeys(log) <==> EverDenied(log, k)
  {
    if EverDenied(log, k) {
      var i :| 0 <= i < |log| && DeniedBy(log[i], k);
      assert log[i].key.value == k;
    }
  }

  lemma DeniedKeysNext(log: seq<Row>, r: Row)
    ensures DeniedKeys(log + [r])
            == if r.key.Some? && DeniedBy(r, r.key.value) then DeniedKeys(log) + {r.key.value} else DeniedKeys(log)
  {
    hide EverDenied;
    forall k: Key ensures k in DeniedKeys(log + [r]) <==> k in DeniedKeys(log) || DeniedBy(r, k) {
      DeniedKeysAre(log + [r], k);
      DeniedKeysAre(log, k);
      TypedNext(log, r, k);
    }
  }

  /** What stands paid by card and undenied, and what the open attempt may add, come to no more than the highest
      total and what has been taken back. */
  ghost predicate Bounded(b: Books, high: int) {
    var undenied := PaidKeys(b.payments) - DeniedKeys(b.log);
    TotalMinor(b.lines) <= high
    && ReservedUnder(b.log, undenied) <= high + ReversedCardMinor(b.payments, b.reversals)
    && forall k: Key :: Open(b.log, k) && Reserved(b.log, k).Some? ==>
         ReservedUnder(b.log, undenied) + Reserved(b.log, k).value <= high + ReversedCardMinor(b.payments, b.reversals)
  }

  predicate Positive(log: seq<Row>) {
    forall i :: 0 <= i < |log| && IsReservation(log[i]) ==> log[i].amount > 0
  }

  lemma {:induction false} MoreKeysMore(log: seq<Row>, s: set<Key>, t: set<Key>)
    requires Positive(log) && s <= t
    ensures 0 <= ReservedUnder(log, s) <= ReservedUnder(log, t)
  {
    if log != [] {
      assert IsReservation(log[|log| - 1]) ==> log[|log| - 1].amount > 0;
      assert forall i :: 0 <= i < |log| - 1 ==> log[..|log| - 1][i] == log[i];
      MoreKeysMore(log[..|log| - 1], s, t);
    }
  }

  lemma NextReserved(log: seq<Row>, r: Row, keys: set<Key>)
    ensures ReservedUnder(log + [r], keys)
            == ReservedUnder(log, keys) + (if IsReservation(r) && r.key.value in keys then r.amount else 0)
  {
    assert (log + [r])[..|log|] == log;
  }

  /** What stands of the card payments is within what stands of all. */
  lemma {:induction false} CardsWithinPaid(payments: seq<Payment>, reversals: map<nat, Instant>)
    requires forall i :: 0 <= i < |payments| ==> payments[i].amount > 0
    ensures CardMinor(payments) - ReversedCardMinor(payments, reversals) <= UnreversedSum(payments, reversals)
    ensures ReversedCardMinor(payments, reversals) >= 0
  {
    if payments != [] {
      CardsWithinPaid(payments[..|payments| - 1], reversals);
    }
  }

  /** One more payment, not yet reversed. */
  lemma OneMorePayment(payments: seq<Payment>, p: Payment, reversals: map<nat, Instant>)
    requires forall i :: i in reversals ==> i < |payments|
    ensures ReversedCardMinor(payments + [p], reversals) == ReversedCardMinor(payments, reversals)
    ensures PaidKeys(payments + [p])
            == if p.attempt.Some? then PaidKeys(payments) + {p.attempt.value} else PaidKeys(payments)
  {
    var all := payments + [p];
    assert all[..|payments|] == payments && all[|payments|] == p;
    assert |payments| !in reversals;
    forall k | k in PaidKeys(payments) ensures k in PaidKeys(all) {
      var i :| 0 <= i < |payments| && payments[i].attempt == Some(k);
      assert all[i].attempt == Some(k);
    }
    if p.attempt.Some? {
      assert all[|payments|].attempt.value in PaidKeys(all);
    }
  }

  lemma {:induction false} ReversingMore(payments: seq<Payment>, reversals: map<nat, Instant>, i: nat, at: Instant)
    requires forall j :: 0 <= j < |payments| ==> payments[j].amount > 0
    ensures ReversedCardMinor(payments, reversals[i := at]) >= ReversedCardMinor(payments, reversals)
  {
    if payments != [] {
      ReversingMore(payments[..|payments| - 1], reversals, i, at);
    }
  }

  lemma HigherStillBounds(b: Books, high: int, higher: int)
    requires Bounded(b, high) && high <= higher
    ensures Bounded(b, higher)
  {
    hide PaidKeys, DeniedKeys, ReservedUnder, ReversedCardMinor, TotalMinor, StageOf, Reserved;
  }

  /** The same money, with a row that reserves nothing, denies nothing and opens nothing. */
  lemma RowKeepsBounded(b: Books, after: Books, r: Row, high: int)
    requires Bounded(b, high) && after == b.(log := b.log + [r]) && !IsReservation(r)
    requires r.key.Some? ==> !DeniedBy(r, r.key.value)
    requires forall j: Key :: Open(after.log, j) ==> Open(b.log, j)
    ensures Bounded(after, high)
  {
    hide PaidKeys, DeniedKeys, ReservedUnder, ReversedCardMinor, TotalMinor, StageOf, Reserved;
    NextReserved(b.log, r, PaidKeys(b.payments) - DeniedKeys(b.log));
    DeniedKeysNext(b.log, r);
    forall j: Key ensures Open(b.log, j) ==> Reserved(after.log, j) == Reserved(b.log, j) {
      NextRow(b.log, r, j);
    }
  }

  lemma StartKeepsBounded(w: World, newKey: Key, mandates: map<AgreementId, bool>, high: int)
    requires Safe(w) && Bounded(w.books, high) && Reserve(w.books, newKey, mandates).Ok?
    ensures Bounded(Reserve(w.books, newKey, mandates).value.books, high)
  {
    hide StageOf, Reserve, SaysSuccess, Cards, Reserved, CardMinor, TotalMinor, UnreversedSum, PaidKeys, DeniedKeys,
      ReservedUnder, ReversedCardMinor;
    var b, r := w.books, Reserve(w.books, newKey, mandates).value;
    ReservingIs(b, w.out, newKey, mandates);
    var row := r.books.log[|b.log|];
    StagesNext(b.log, row, r.key);
    Readings(b.log, r.key);
    if r.resumed {
      RowKeepsBounded(b, r.books, row, high);
    } else {
      var paid := PaidKeys(b.payments);
      CardsCountKeys(b.payments, r.key);
      CardsAreReservations(b.log, b.payments);
      CardsWithinPaid(b.payments, b.reversals);
      MoreKeysMore(b.log, paid - DeniedKeys(b.log), paid);
      NextReserved(b.log, row, paid - DeniedKeys(b.log));
      DeniedKeysNext(b.log, row);
      NextRow(b.log, row, r.key);
      assert forall j: Key :: Open(r.books.log, j) ==> j == r.key;
    }
  }

  lemma SettlingKeepsBounded(w: World, k: Key, result: Outcome, fromTheProcessor: bool, at: Instant, high: int)
    requires Safe(w) && Told(w) && Bounded(w.books, high) && Settle(w.books, k, result, fromTheProcessor, at).Ok?
    requires fromTheProcessor ==>
               !StageOf(w.books.log, k).Closed? && k in w.decided && (result.Success? <==> w.decided[k])
    ensures Bounded(Settle(w.books, k, result, fromTheProcessor, at).value, high)
  {
    hide StageOf, Settle, SaysSuccess, Cards, Reserved, TotalMinor, UnreversedSum, PaidKeys, DeniedKeys, ReservedUnder,
      ReversedCardMinor, OperatorDenied, OperatorAffirmed;
    var b, after := w.books, Settle(w.books, k, result, fromTheProcessor, at).value;
    SettlingIs(b, k, result, fromTheProcessor, at);
    SettlingWrites(b, k, result, fromTheProcessor, at);
    var row := after.log[|b.log|];
    StagesNext(b.log, row, k);
    Readings(b.log, k);
    forall j: Key ensures Reserved(after.log, j) == Reserved(b.log, j) {
      NextRow(b.log, row, j);
    }
    DeniedKeysNext(b.log, row);
    var paid, undenied := PaidKeys(b.payments), PaidKeys(b.payments) - DeniedKeys(b.log);
    var undeniedNow := PaidKeys(after.payments) - DeniedKeys(after.log);
    assert b.payments + [] == b.payments;
    if after.payments != b.payments {
      OneMorePayment(b.payments, after.payments[|b.payments|], b.reversals);
    }
    CardsCountKeys(b.payments, k);
    if Open(b.log, k) {
      assert undeniedNow <= undenied + {k};
      MoreKeysMore(b.log, undeniedNow, undenied + {k});
      OneMoreKey(b.log, undenied, k);
    } else {
      LatePaysTheDenied(w, k);
      assert undeniedNow == undenied;
    }
    NextReserved(b.log, row, undeniedNow);
  }

  /** A late success that still pays is one the operator had denied. */
  lemma LatePaysTheDenied(w: World, k: Key)
    requires Told(w)
    ensures HasOutcome(w.books.log, k) && !SaysSuccess(w.books.log, k) && Moved(w, k) ==> k in DeniedKeys(w.books.log)
  {
    hide StageOf, SaysSuccess, DeniedKeys;
    DeniedKeysAre(w.books.log, k);
  }

  lemma SettlingWrites(b: Books, k: Key, result: Outcome, fromTheProcessor: bool, at: Instant)
    requires Settle(b, k, result, fromTheProcessor, at).Ok?
    ensures Settle(b, k, result, fromTheProcessor, at).value.reversals == b.reversals
  {
    hide Reserved, Recorded, PaidMinor, TotalMinor;
  }

  lemma ElsewhereKeepsBounded(engine: Engine, w: World, e: Event, high: int)
    requires Safe(w) && Told(w) && Bounded(w.books, high)
    requires NotAWorkers(e) && Post(engine, w.books, e).Ok? && TotalMinor(Post(engine, w.books, e).value.lines) <= high
    ensures Bounded(Post(engine, w.books, e).value, high)
  {
    hide StageOf, Settle, SaysSuccess, Counted, Cards, ReservedSinceChange, Reserved, CardMinor, Adjusted, TotalMinor,
      SubtotalMinor, PaidMinor, PaidKeys, DeniedKeys, ReservedUnder, ReversedCardMinor;
    var after := Post(engine, w.books, e).value;
    match e {
      case Received(m, amount, at) => OneMorePayment(w.books.payments, Payment(m, amount, at, None), w.books.reversals);
      case Reversed(i, _, at) => ReversingMore(w.books.payments, w.books.reversals, i, at);
      case Resolved(key, result, at) => SettlingKeepsBounded(w, key, result, false, at, high);
      case NewMethod =>
        var row := Row(MethodChanged, None, None, 0, Operator);
        forall k: Key ensures Open(after.log, k) == Open(w.books.log, k) {
          NextRow(w.books.log, row, k);
        }
        RowKeepsBounded(w.books, after, row, high);
      case _ =>
    }
  }

  lemma NoAnswerKeepsBounded(w: World, worker: WorkerId, high: int)
    requires Safe(w) && Bounded(w.books, high) && worker in w.out
    ensures Bounded(RecordUnknown(w.books, w.out[worker]), high)
  {
    hide StageOf, TotalMinor, PaidKeys, DeniedKeys, ReservedUnder, ReversedCardMinor, Reserved;
    var k, row := w.out[worker], Row(Unknown, Some(w.out[worker]), None, 0, Worker);
    StagesNext(w.books.log, row, k);
    RowKeepsBounded(w.books, RecordUnknown(w.books, k), row, high);
  }

  lemma StepsKeepBounded(engine: Engine, w: World, a: Action, high: int, higher: int)
    requires Safe(w) && Told(w) && Bounded(w.books, high) && Truthful(w, a)
    requires high <= higher && TotalMinor(Do(engine, w, a).books.lines) <= higher
    ensures Bounded(Do(engine, w, a).books, higher)
  {
    hide Bounded, Settle, Reserve, Safe, Told, TotalMinor;
    HigherStillBounds(w.books, high, higher);
    match a {
      case StartCharge(worker, newKey, mandates) =>
        if worker !in w.out && Reserve(w.books, newKey, mandates).Ok? {
          StartKeepsBounded(w, newKey, mandates, higher);
        }
      case Answer(worker, result, at) =>
        if worker in w.out {
          AnswersAreRecorded(w, worker, result, at);
          SettlingKeepsBounded(w, w.out[worker], result, true, at, higher);
        }
      case NoAnswer(worker) =>
        if worker in w.out {
          NoAnswerKeepsBounded(w, worker, higher);
        }
      case Elsewhere(e) =>
        if NotAWorkers(e) && Post(engine, w.books, e).Ok? {
          ElsewhereKeepsBounded(engine, w, e, higher);
        }
      case _ =>
    }
  }

  lemma NothingMovedYet(issued: Books)
    requires Fresh(issued) && TotalMinor(issued.lines) >= 0
    ensures Bounded(issued, TotalMinor(issued.lines))
  {
    assert PaidKeys(issued.payments) == {};
    NoKeys(issued.log);
  }

  lemma {:induction false} TruthfulRunsAreBounded(engine: Engine, issued: Books, actions: seq<Action>)
    requires Fresh(issued) && TotalMinor(issued.lines) >= 0 && TruthfulRun(engine, issued, actions)
    ensures Bounded(Reach(engine, issued, actions).books, HighestTotal(engine, issued, actions))
  {
    hide Do, Safe, Told, TotalMinor, Bounded;
    TruthfulRunsAreTold(engine, issued, actions);
    if actions == [] {
      NothingMovedYet(issued);
    } else {
      var front := actions[..|actions| - 1];
      TruthfulRunsAreTold(engine, issued, front);
      TruthfulRunsAreBounded(engine, issued, front);
      StepsKeepBounded(engine, Reach(engine, issued, front), actions[|actions| - 1],
                       HighestTotal(engine, issued, front), HighestTotal(engine, issued, actions));
    }
  }

  lemma {:induction false} ReservedUnderEither(log: seq<Row>, s: set<Key>, t: set<Key>)
    requires Positive(log)
    ensures ReservedUnder(log, s + t) <= ReservedUnder(log, s) + ReservedUnder(log, t)
  {
    ReservedUnderBoth(log, s, t - s);
    MoreKeysMore(log, t - s, t);
    assert s + (t - s) == s + t;
  }

  /** Whatever cheques arrive or bounce, whatever the owner waives and whatever is taken back, however often a charge
      is retried: the processor never moves more than the highest total the invoice has had, the card payments that
      were taken back, and what was moved under keys the operator denied. */
  lemma NeverMoreThanTheTotal(engine: Engine, issued: Books, actions: seq<Action>)
    requires Fresh(issued) && TotalMinor(issued.lines) >= 0 && TruthfulRun(engine, issued, actions)
    ensures var w := Reach(engine, issued, actions);
            MovedMinor(w)
            <= HighestTotal(engine, issued, actions) + ReversedCardMinor(w.books.payments, w.books.reversals)
               + ReservedUnder(w.books.log, MovedKeys(w) * DeniedKeys(w.books.log))
  {
    hide Do, TotalMinor, CardMinor, Reserved, StageOf, ReservedUnder, PaidKeys, DeniedKeys, MovedKeys, HighestTotal,
         ReversedCardMinor, Cards, SaysSuccess;
    TruthfulRunsAreTold(engine, issued, actions);
    TruthfulRunsAreBounded(engine, issued, actions);
    var w := Reach(engine, issued, actions);
    var log, undenied := w.books.log, PaidKeys(w.books.payments) - DeniedKeys(w.books.log);
    if k: Key :| Open(log, k) {
      MovedAreThese(w, k);
      Readings(log, k);
      CardsCountKeys(w.books.payments, k);
      OneMoreKey(log, undenied, k);
      MoreKeysMore(log, MovedKeys(w), undenied + {k} + (MovedKeys(w) * DeniedKeys(log)));
      ReservedUnderEither(log, undenied + {k}, MovedKeys(w) * DeniedKeys(log));
    } else {
      MovedAreThese(w, 0);
      MoreKeysMore(log, MovedKeys(w), undenied + (MovedKeys(w) * DeniedKeys(log)));
      ReservedUnderEither(log, undenied, MovedKeys(w) * DeniedKeys(log));
    }
  }

  /** Money moved is paid and undenied, denied, or under the one open attempt. */
  lemma MovedAreThese(w: World, k: Key)
    requires Safe(w) && Told(w) && forall j: Key :: Open(w.books.log, j) ==> j == k
    ensures var moved, denied := MovedKeys(w), DeniedKeys(w.books.log);
            var undenied := PaidKeys(w.books.payments) - denied;
            if Open(w.books.log, k) then moved <= undenied + {k} + (moved * denied)
            else moved <= undenied + (moved * denied)
  {
    hide StageOf, SaysSuccess, Cards, EverDenied, OperatorDenied, OperatorAffirmed;
    forall j: Key | j in MovedKeys(w)
      ensures j in PaidKeys(w.books.payments) || j in DeniedKeys(w.books.log) || (j == k && Open(w.books.log, k))
    {
      assert Moved(w, j) && Reserved(w.books.log, j).Some?;
      CardsCountKeys(w.books.payments, j);
      Readings(w.books.log, j);
      LatePaysTheDenied(w, j);
      assert Open(w.books.log, j) || HasOutcome(w.books.log, j);
      assert Cards(w.books.payments, j) == (if SaysSuccess(w.books.log, j) then 1 else 0);
    }
  }

  /** With an operator who agrees there is nothing under the denied keys. */
  lemma AgreedNeverMoreThanTheTotal(engine: Engine, issued: Books, actions: seq<Action>)
    requires Fresh(issued) && TotalMinor(issued.lines) >= 0 && AgreeingRun(engine, issued, actions)
    ensures var w := Reach(engine, issued, actions);
            MovedMinor(w)
            <= HighestTotal(engine, issued, actions) + ReversedCardMinor(w.books.payments, w.books.reversals)
  {
    hide Do, TotalMinor, ReservedUnder, DeniedKeys, HighestTotal, ReversedCardMinor, MovedMinor;
    AgreeingIsTruthful(engine, issued, actions);
    NeverMoreThanTheTotal(engine, issued, actions);
    AgreeingRunsAreAgreed(engine, issued, actions);
    var w := Reach(engine, issued, actions);
    forall k | k in MovedKeys(w) ensures k !in DeniedKeys(w.books.log) {
      DeniedKeysAre(w.books.log, k);
    }
    assert MovedKeys(w) * DeniedKeys(w.books.log) == {};
    NoKeys(w.books.log);
  }

  lemma {:induction false} AgreeingIsTruthful(engine: Engine, issued: Books, actions: seq<Action>)
    requires AgreeingRun(engine, issued, actions)
    ensures TruthfulRun(engine, issued, actions)
  {
    if actions != [] {
      AgreeingIsTruthful(engine, issued, actions[..|actions| - 1]);
    }
  }

  // ---------------------------------------------------------------- and what disagreement costs

  lemma ReachNext(engine: Engine, issued: Books, front: seq<Action>, a: Action)
    ensures Reach(engine, issued, front + [a]) == Do(engine, Reach(engine, issued, front), a)
    ensures TruthfulRun(engine, issued, front + [a])
            <==> TruthfulRun(engine, issued, front) && Truthful(Reach(engine, issued, front), a)
  {
    assert (front + [a])[..|front|] == front;
  }

  /** One agreement with a mandate, one line, nothing yet recorded. */
  function OneLine(log: seq<Row>): Books {
    Books([Line(FullPeriod, 100, Some(1), Some(1), 0, 30, None, None, None)], [], map[], [], log, None, 0, None)
  }

  lemma ReservesTheWhole(log: seq<Row>, newKey: Key)
    requires (forall i :: 0 <= i < |log| && IsReservation(log[i]) ==> HasRow(log, log[i].key.value, OutcomeRow))
    requires |Counted(log)| < 3 && !HasRow(log, newKey, Attempt)
    ensures var b := OneLine(log);
            TotalMinor(b.lines) == 100 && PaidMinor(b) == 0
            && Reserve(b, newKey, map[1 := true])
               == Ok(Reservation(OneLine(log + [Row(Attempt, Some(newKey), None, 100, Worker)]), newKey, 100, false))
  {
    hide Counted, HasRow;
    var b := OneLine(log);
    SumsOverOne(b.lines[0], Everything);
    assert b.lines[0].agreement == Some(1);
    assert 1 in Named(b.lines) && 1 in map[1 := true];
  }

  const RESERVED_7 := Row(Attempt, Some(7), None, 100, Worker)
  const UNKNOWN_7 := Row(Unknown, Some(7), None, 0, Worker)
  const DENIED_7 := Row(OutcomeRow, Some(7), Some(Decline), 0, Operator)
  const RESERVED_8 := Row(Attempt, Some(8), None, 100, Worker)
  const MANDATE := map[1 := true]

  lemma DenialCountsOnce(r1: Row, r2: Row, r3: Row)
    requires IsReservation(r1) && r2.kind.Unknown? && r3.kind.OutcomeRow?
    ensures |Counted([r1] + [r2] + [r3])| <= 1 && |Counted([])| == 0
  {
    assert Counted([]) == {};
    assert [] + [r1] == [r1];
    OneMoreRow([], r1);
    OneMoreRow([r1], r2);
    OneMoreRow([r1] + [r2], r3);
  }

  /** The denied log lets the whole balance be reserved again. */
  lemma DeniedAndReservedAgain()
    ensures Reserve(OneLine([]), 7, MANDATE) == Ok(Reservation(OneLine([RESERVED_7]), 7, 100, false))
    ensures var log := [RESERVED_7] + [UNKNOWN_7] + [DENIED_7];
            Reserve(OneLine(log), 8, MANDATE) == Ok(Reservation(OneLine(log + [RESERVED_8]), 8, 100, false))
    ensures TotalMinor(OneLine([]).lines) == 100
  {
    hide Counted, Reserve, TotalMinor, PaidMinor;
    assert [] + [RESERVED_7] == [RESERVED_7];
    DenialCountsOnce(RESERVED_7, UNKNOWN_7, DENIED_7);
    var log := [RESERVED_7] + [UNKNOWN_7] + [DENIED_7];
    assert log[2] == DENIED_7;
    ReservesTheWhole([], 7);
    ReservesTheWhole(log, 8);
  }

  lemma Denying(engine: Engine, reserved: Books, at: Instant)
    requires reserved.log == [RESERVED_7]
    ensures After(engine, RecordUnknown(reserved, 7), Resolved(7, Decline, at))
            == reserved.(log := [RESERVED_7] + [UNKNOWN_7] + [DENIED_7])
  {
    var log := [RESERVED_7] + [UNKNOWN_7];
    assert log[..1] == [RESERVED_7];
    assert Reserved([RESERVED_7], 7) == Some(100) && Recorded([RESERVED_7], 7).None?;
    assert Reserved(log, 7) == Some(100) && Recorded(log, 7).None?;
  }

  /** The run up to the operator's denial. */
  lemma ReachesTheDenial(engine: Engine)
    ensures var typed := [StartCharge(1, 7, MANDATE)] + [Decide(7, true)] + [NoAnswer(1)]
                         + [Elsewhere(Resolved(7, Decline, 5))];
            Reach(engine, OneLine([]), typed)
            == World(OneLine([RESERVED_7] + [UNKNOWN_7] + [DENIED_7]), map[], map[7 := true])
            && TruthfulRun(engine, OneLine([]), typed)
  {
    hide Reserve, TotalMinor, PaidMinor, After, Reach, TruthfulRun;
    var issued := OneLine([]);
    var start := [StartCharge(1, 7, MANDATE)];
    assert [] + [StartCharge(1, 7, MANDATE)] == start;
    NothingDone(engine, issued);
    DeniedAndReservedAgain();
    Denying(engine, OneLine([RESERVED_7]), 5);
    ReachNext(engine, issued, [], StartCharge(1, 7, MANDATE));
    ReachNext(engine, issued, start, Decide(7, true));
    assert Reserved([RESERVED_7], 7) == Some(100) by { assert [RESERVED_7][0] == RESERVED_7; }
    ReachNext(engine, issued, start + [Decide(7, true)], NoAnswer(1));
    ReachNext(engine, issued, start + [Decide(7, true)] + [NoAnswer(1)], Elsewhere(Resolved(7, Decline, 5)));
  }

  lemma NothingDone(engine: Engine, issued: Books)
    ensures Reach(engine, issued, []) == World(issued, map[], map[]) && TruthfulRun(engine, issued, [])
  {}

  /** A denial typed while no ask was out, on an attempt whose money had moved: nothing is open any more, the
      next charge reserves the whole balance under a fresh key, and the payer is charged twice. */
  lemma ADenialThatDisagrees(engine: Engine)
    ensures var typed := [StartCharge(1, 7, MANDATE)] + [Decide(7, true)] + [NoAnswer(1)]
                         + [Elsewhere(Resolved(7, Decline, 5))];
            var actions := typed + [StartCharge(1, 8, MANDATE)] + [Decide(8, true)];
            var w := Reach(engine, OneLine([]), actions);
            Fresh(OneLine([])) && TruthfulRun(engine, OneLine([]), actions)
            && Moved(w, 7) && OperatorDenied(w.books.log, 7) && Cards(w.books.payments, 7) == 0
            && Moved(w, 8) && MovedMinor(w) == 200 > TotalMinor(w.books.lines)
  {
    hide Reserve, TotalMinor, Reach, TruthfulRun;
    var typed := [StartCharge(1, 7, MANDATE)] + [Decide(7, true)] + [NoAnswer(1)]
                 + [Elsewhere(Resolved(7, Decline, 5))];
    var w := World(OneLine([RESERVED_7] + [UNKNOWN_7] + [DENIED_7] + [RESERVED_8]), map[1 := 8],
                   map[7 := true, 8 := true]);
    DeniedAndReservedAgain();
    ReachesTheDenial(engine);
    ReachNext(engine, OneLine([]), typed, StartCharge(1, 8, MANDATE));
    ReachNext(engine, OneLine([]), typed + [StartCharge(1, 8, MANDATE)], Decide(8, true));
    assert DeniedBy(w.books.log[2], 7);
    ReservedUnderFour(RESERVED_7, UNKNOWN_7, DENIED_7, RESERVED_8, MovedKeys(w));
  }

  lemma ReservedUnderFour(r1: Row, r2: Row, r3: Row, r4: Row, keys: set<Key>)
    requires IsReservation(r1) && IsReservation(r4) && !IsReservation(r2) && !IsReservation(r3)
    requires r1.key.value in keys && r4.key.value in keys
    ensures ReservedUnder([r1] + [r2] + [r3] + [r4], keys) == r1.amount + r4.amount
  {
    var log := [r1] + [r2] + [r3] + [r4];
    assert log[..3] == [r1, r2, r3] && log[..3][..2] == [r1, r2] && [r1, r2][..1] == [r1] && [r1][..0] == [];
    assert ReservedUnder([r1], keys) == r1.amount;
    assert ReservedUnder([r1, r2], keys) == r1.amount;
    assert ReservedUnder(log[..3], keys) == r1.amount;
  }

  /** The late branch looks only at the recorded outcome: two late successes under one key would pay twice. That
      there is never a second is the work of the invariant, not of the branch. */
  lemma TheLateBranchAlone(engine: Engine, b: Books, k: Key, at: Instant)
    requires Reserved(b.log, k).Some? && Recorded(b.log, k) == Some(Decline)
    ensures var twice := After(engine, After(engine, b, Answered(k, Success, at)), Answered(k, Success, at));
            Cards(twice.payments, k) == Cards(b.payments, k) + 2
  {
    OneLateSuccess(engine, b, k, at);
    var once := After(engine, b, Answered(k, Success, at));
    OneLateSuccess(engine, once, k, at);
  }

  lemma OneLateSuccess(engine: Engine, b: Books, k: Key, at: Instant)
    requires Reserved(b.log, k).Some? && Recorded(b.log, k) == Some(Decline)
    ensures var after := After(engine, b, Answered(k, Success, at));
            Cards(after.payments, k) == Cards(b.payments, k) + 1
            && Reserved(after.log, k).Some? && Recorded(after.log, k) == Some(Decline)
  {
    hide TotalMinor, PaidMinor, RecordException, RecordPayment, RecordReversal, Reserve;
    var p, late := Payment(Card, Reserved(b.log, k).value, at, Some(k)), Row(Late, Some(k), Some(Success), 0, Worker);
    assert (b.log + [late])[..|b.log|] == b.log;
    assert (b.payments + [p])[..|b.payments|] == b.payments;
  }
}
