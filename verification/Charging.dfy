/** The charge protocol of `charging.py`. A charge is T1 under the invoice lock, a call to the processor outside any
    lock, and T2 under the lock again; between the two, and instead of the second, anything may happen.

    Workers, an operator, the processor and the ledger's other events take steps in any order. What each step
    does to the books is `Ledger`'s; what is proved here is about every reachable state. */
module Charging {
  import opened Garages
  import opened Agreements
  import opened Lines
  import opened Taxes
  import opened ChargeLog
  import opened Ledger
  import opened Options

  type WorkerId = int

  /** `out` is who is at the processor and under which key; `decided` is the processor: whether money moved
      under a key, once it has made up its mind. */
  datatype World = World(books: Books, out: map<WorkerId, Key>, decided: map<Key, bool>)

  datatype Action =
    | StartCharge(worker: WorkerId, newKey: Key, mandates: map<AgreementId, bool>)
    | Decide(key: Key, moved: bool)
    | Answer(worker: WorkerId, result: Outcome, at: Instant)
    | NoAnswer(worker: WorkerId)
    | Crash(worker: WorkerId)
    | Elsewhere(event: Event)

  /** The events that are not a charge worker's. */
  predicate NotAWorkers(e: Event) {
    !e.Asked? && !e.Answered? && !e.Unanswered?
  }

  /** One step; a step that is not enabled changes nothing. The processor decides once per key, and only on a
      key it has been asked about. A crashed worker writes nothing more, but its request stays with the
      processor, which may still decide. */
  function Do(engine: Engine, w: World, a: Action): World {
    match a
    case StartCharge(worker, newKey, mandates) =>
      if worker in w.out then w
      else (match Reserve(w.books, newKey, mandates)
            case Ok(r) => w.(books := r.books, out := w.out[worker := r.key])
            case Refused(_) => w)
    case Decide(key, moved) =>
      if key in w.decided || Reserved(w.books.log, key).None? then w else w.(decided := w.decided[key := moved])
    case Answer(worker, result, at) =>
      if worker !in w.out then w
      else w.(books := After(engine, w.books, Answered(w.out[worker], result, at)), out := w.out - {worker})
    case NoAnswer(worker) =>
      if worker !in w.out then w
      else w.(books := RecordUnknown(w.books, w.out[worker]), out := w.out - {worker})
    case Crash(worker) => w.(out := w.out - {worker})
    case Elsewhere(e) => if NotAWorkers(e) then w.(books := After(engine, w.books, e)) else w
  }

  function Reach(engine: Engine, issued: Books, actions: seq<Action>): World {
    if actions == [] then World(issued, map[], map[])
    else Do(engine, Reach(engine, issued, actions[..|actions| - 1]), actions[|actions| - 1])
  }

  // ---------------------------------------------------------------- where one attempt stands

  datatype Stage = Unasked | InFlight | Unsure | Settled | Closed | Broken

  /** What one more row of an attempt's own makes of it; `Broken` is every order not listed. */
  function Advance(s: Stage, r: Row): Stage {
    match s
    case Unasked => if r.kind.Attempt? then InFlight else Broken
    case InFlight =>
      if r.kind.Unknown? then Unsure else if r.kind.OutcomeRow? && r.outcome.Some? then Settled else Broken
    case Unsure => if r.kind.Ask? then InFlight else if r.kind.OutcomeRow? && r.outcome.Some? then Closed else Broken
    case Settled => if r.kind.Unknown? || (r.kind.Late? && r.outcome.Some?) then Closed else Broken
    case Closed => Broken
    case Broken => Broken
  }

  function StageOf(log: seq<Row>, key: Key): Stage {
    if log == [] then Unasked
    else
      var before, r := StageOf(log[..|log| - 1], key), log[|log| - 1];
      if r.key == Some(key) then Advance(before, r) else before
  }

  /** Reserved, and no outcome recorded. */
  predicate Open(log: seq<Row>, key: Key) {
    StageOf(log, key).InFlight? || StageOf(log, key).Unsure?
  }

  predicate SaidBy(r: Row, key: Key) {
    r.key == Some(key) && (r.kind.OutcomeRow? || r.kind.Late?) && r.outcome == Some(Success)
  }

  /** Some outcome or late row of the attempt says SUCCESS. */
  predicate SaysSuccess(log: seq<Row>, key: Key) {
    exists i :: 0 <= i < |log| && SaidBy(log[i], key)
  }

  predicate DeniedBy(r: Row, key: Key) {
    r.key == Some(key) && r.kind.OutcomeRow? && r.recordedBy.Operator? && r.outcome.Some? && !r.outcome.value.Success?
  }

  /** The operator typed a non-success, and no answer of the processor's is recorded after it. */
  predicate OperatorDenied(log: seq<Row>, key: Key) {
    (exists i :: 0 <= i < |log| && DeniedBy(log[i], key)) && !HasRow(log, key, Late)
  }

  function Cards(payments: seq<Payment>, key: Key): nat {
    if payments == [] then 0
    else Cards(payments[..|payments| - 1], key) + (if payments[|payments| - 1].attempt == Some(key) then 1 else 0)
  }

  // ---------------------------------------------------------------- the invariant

  /** Every attempt's rows are in order, at most one is open, and whoever is at the processor is there under a
      key of its own whose next row is still to come. */
  ghost predicate Orderly(log: seq<Row>, out: map<WorkerId, Key>) {
    (forall k: Key :: !StageOf(log, k).Broken?)
    && (forall i :: 0 <= i < |log| ==> (log[i].key.None? <==> log[i].kind.MethodChanged?))
    && (forall j: Key, k: Key :: Open(log, j) && Open(log, k) ==> j == k)
    && (forall v :: v in out ==> StageOf(log, out[v]).InFlight? || StageOf(log, out[v]).Settled?)
    && (forall u, v :: u in out && v in out && out[u] == out[v] ==> u == v)
  }

  /** One card payment per key that an outcome or late row says succeeded and none for any other, each for what
      its attempt reserved. */
  ghost predicate PaidAsSaid(log: seq<Row>, payments: seq<Payment>) {
    (forall k: Key :: Cards(payments, k) == (if SaysSuccess(log, k) then 1 else 0))
    && (forall i :: 0 <= i < |payments| ==>
          (payments[i].means.Card? <==> payments[i].attempt.Some?)
          && (payments[i].attempt.Some? ==> Reserved(log, payments[i].attempt.value) == Some(payments[i].amount)))
  }

  /** Failures counted against the method, and the attempt that may yet add one, are at most three. */
  ghost predicate WithinTheLimit(log: seq<Row>) {
    |Counted(log)| <= 3
    && forall k: Key :: Open(log, k) && k in ReservedSinceChange(log) ==> |Counted(log)| < 3
  }

  ghost predicate Safe(w: World) {
    Derived(w.books) && Orderly(w.books.log, w.out) && PaidAsSaid(w.books.log, w.books.payments)
    && WithinTheLimit(w.books.log)
  }

  // ---------------------------------------------------------------- one row, and what the readings make of it

  lemma NextRow(log: seq<Row>, r: Row, k: Key)
    ensures StageOf(log + [r], k) == (if r.key == Some(k) then Advance(StageOf(log, k), r) else StageOf(log, k))
    ensures SaysSuccess(log + [r], k) == (SaysSuccess(log, k) || SaidBy(r, k))
    ensures Reserved(log + [r], k) == (if r.kind.Attempt? && r.key == Some(k) then Some(r.amount) else Reserved(log, k))
    ensures OperatorDenied(log + [r], k) ==
            ((OperatorDenied(log, k) || (DeniedBy(r, k) && !HasRow(log, k, Late)))
             && !(r.kind.Late? && r.key == Some(k)))
  {
    var all := log + [r];
    assert all[..|log|] == log && all[|log|] == r;
    assert forall i :: 0 <= i < |log| ==> all[i] == log[i];
  }

  /** Each of the protocol's readings of the log, by where the attempt stands. */
  lemma {:induction false} Readings(log: seq<Row>, k: Key)
    requires !StageOf(log, k).Broken?
    ensures var s := StageOf(log, k);
            (Reserved(log, k).Some? <==> !s.Unasked?)
            && (HasRow(log, k, Attempt) <==> !s.Unasked?)
            && (Recorded(log, k).Some? <==> s.Settled? || s.Closed?)
            && (HasRow(log, k, OutcomeRow) <==> s.Settled? || s.Closed?)
            && (s.InFlight? ==> LastKind(log, k) != Some(Unknown))
            && (s.Unsure? ==> LastKind(log, k) == Some(Unknown))
            && (s.Unasked? || s.InFlight? || s.Unsure? || s.Settled? ==> !HasRow(log, k, Late))
            && (s.Unasked? || s.InFlight? || s.Unsure? ==> !SaysSuccess(log, k))
            && (s.Settled? ==> (SaysSuccess(log, k) <==> Recorded(log, k) == Some(Success)))
            && (Recorded(log, k) == Some(Success) ==> SaysSuccess(log, k))
            && (OperatorDenied(log, k) ==> !SaysSuccess(log, k) && HasRow(log, k, OutcomeRow))
  {
    if log != [] {
      var front, r := log[..|log| - 1], log[|log| - 1];
      Readings(front, k);
      assert log == front + [r];
      NextRow(front, r, k);
      forall kind ensures HasRow(log, k, kind) <==> HasRow(front, k, kind) || (r.kind == kind && r.key == Some(k)) {
        HasRowNext(front, r, k, kind);
      }
    }
  }

  lemma HasRowNext(log: seq<Row>, r: Row, k: Key, kind: Kind)
    ensures HasRow(log + [r], k, kind) <==> HasRow(log, k, kind) || (r.kind == kind && r.key == Some(k))
  {
    var all := log + [r];
    assert all[|log|] == r;
    assert forall i :: 0 <= i < |log| ==> all[i] == log[i];
  }

  /** An attempt has one reservation row, and `Reserved` reads its amount. */
  lemma {:induction false} OneReservation(log: seq<Row>, i: nat)
    requires i < |log| && IsReservation(log[i]) && !StageOf(log, log[i].key.value).Broken?
    ensures Reserved(log, log[i].key.value) == Some(log[i].amount)
  {
    var front, r := log[..|log| - 1], log[|log| - 1];
    if i < |log| - 1 {
      OneReservation(front, i);
      Readings(front, log[i].key.value);
    }
  }

  /** `_pending_rows` finds the open attempt, if there is one. */
  lemma PendingIsOpen(log: seq<Row>)
    requires forall k: Key :: !StageOf(log, k).Broken?
    ensures match Pending(log)
            case Some(p) => Open(log, log[p].key.value) && Reserved(log, log[p].key.value) == Some(log[p].amount)
            case None => forall k: Key :: !Open(log, k)
  {
    match Pending(log) {
      case Some(p) =>
        Readings(log, log[p].key.value);
        OneReservation(log, p);
        assert HasRow(log, log[p].key.value, Attempt);
      case None =>
        forall k: Key ensures !Open(log, k) {
          Readings(log, k);
        }
    }
  }

  // ---------------------------------------------------------------- what one row keeps

  lemma StagesNext(log: seq<Row>, r: Row, k: Key)
    requires r.key == Some(k)
    ensures forall j: Key :: StageOf(log + [r], j) == (if j == k then Advance(StageOf(log, k), r) else StageOf(log, j))
    ensures forall j: Key :: Open(log + [r], j) ==> j == k || Open(log, j)
  {
    forall j: Key ensures StageOf(log + [r], j) == (if j == k then Advance(StageOf(log, k), r) else StageOf(log, j)) {
      NextRow(log, r, j);
    }
  }

  lemma RowKeepsOrder(log: seq<Row>, out: map<WorkerId, Key>, r: Row, k: Key, after: map<WorkerId, Key>)
    requires Orderly(log, out) && r.key == Some(k) && !Advance(StageOf(log, k), r).Broken?
    requires r.kind.Attempt? ==> forall j: Key :: !Open(log, j)
    requires forall v :: v in after && after[v] != k ==> v in out && out[v] == after[v]
    requires forall v :: v in after && after[v] == k ==>
                           Advance(StageOf(log, k), r).InFlight? || Advance(StageOf(log, k), r).Settled?
    requires forall u, v :: u in after && v in after && after[u] == k && after[v] == k ==> u == v
    ensures Orderly(log + [r], after)
  {
    hide StageOf;
    StagesNext(log, r, k);
    assert Open(log + [r], k) ==> Open(log, k) || r.kind.Attempt?;
  }

  /** A row that says nothing new leaves the payments as they should be. */
  lemma RowKeepsPayments(log: seq<Row>, payments: seq<Payment>, r: Row)
    requires PaidAsSaid(log, payments)
    requires r.kind.Attempt? && r.key.Some? ==> Reserved(log, r.key.value).None?
    requires forall k: Key :: SaidBy(r, k) ==> SaysSuccess(log, k)
    ensures PaidAsSaid(log + [r], payments)
  {
    hide SaysSuccess, Cards, Reserved, SaidBy;
    forall k: Key ensures SaysSuccess(log + [r], k) == SaysSuccess(log, k) {
      NextRow(log, r, k);
    }
    forall i | 0 <= i < |payments| && payments[i].attempt.Some?
      ensures Reserved(log + [r], payments[i].attempt.value) == Some(payments[i].amount) {
      NextRow(log, r, payments[i].attempt.value);
    }
  }

  /** The first row to say SUCCESS comes with the payment. */
  lemma RowWithItsPayment(log: seq<Row>, payments: seq<Payment>, r: Row, k: Key, at: Instant)
    requires PaidAsSaid(log, payments)
    requires SaidBy(r, k) && !SaysSuccess(log, k) && Reserved(log, k).Some?
    ensures PaidAsSaid(log + [r], payments + [Payment(Card, Reserved(log, k).value, at, Some(k))])
  {
    hide SaysSuccess, Reserved;
    var p := Payment(Card, Reserved(log, k).value, at, Some(k));
    forall j: Key
      ensures SaysSuccess(log + [r], j) == (SaysSuccess(log, j) || j == k) && Reserved(log + [r], j) == Reserved(log, j)
    {
      NextRow(log, r, j);
    }
    assert (payments + [p])[..|payments|] == payments;
  }

  /** Money that did not come through the charge is under no key. */
  lemma PaymentFromElsewhere(log: seq<Row>, payments: seq<Payment>, p: Payment)
    requires PaidAsSaid(log, payments) && !p.means.Card? && p.attempt.None?
    ensures PaidAsSaid(log, payments + [p])
  {
    assert (payments + [p])[..|payments|] == payments;
  }

  lemma RowKeepsTheLimit(log: seq<Row>, r: Row, k: Key)
    requires WithinTheLimit(log) && r.key == Some(k) && !r.kind.MethodChanged?
    requires forall j: Key :: Open(log, j) && Open(log, k) ==> j == k
    requires !StageOf(log, k).Broken? && !Advance(StageOf(log, k), r).Broken?
    requires r.kind.Attempt? ==> |Counted(log)| < 3 && forall j: Key :: !Open(log, j)
    ensures WithinTheLimit(log + [r])
  {
    hide Counted, ReservedSinceChange, Dated, StageOf, HasRow, Reserved;
    OneMoreRow(log, r);
    Readings(log, k);
    StagesNext(log, r, k);
    if HasRow(log, k, Attempt) {
      AttemptsDate(log, k);
    }
  }

  lemma AttemptsDate(log: seq<Row>, k: Key)
    requires HasRow(log, k, Attempt)
    ensures Dated(log)
  {
    var i :| 0 <= i < |log| && log[i].kind.Attempt? && log[i].key == Some(k);
    assert IsReservation(log[i]);
  }

  // ---------------------------------------------------------------- what each step keeps

  /** T1. A fresh reservation is for the exact balance and that is positive; a re-ask is for what was reserved,
      under the key that was reserved. */
  lemma ReservingIs(b: Books, out: map<WorkerId, Key>, newKey: Key, mandates: map<AgreementId, bool>)
    requires Orderly(b.log, out) && Reserve(b, newKey, mandates).Ok?
    ensures var r := Reserve(b, newKey, mandates).value;
            r.books == b.(log := r.books.log)
            && Some(r.amount) == Reserved(r.books.log, r.key)
            && (if r.resumed
                then StageOf(b.log, r.key).Unsure? && r.books.log == b.log + [Row(Ask, Some(r.key), None, 0, Worker)]
                else (forall k: Key :: !Open(b.log, k)) && StageOf(b.log, r.key).Unasked? && r.key == newKey
                     && r.books.log == b.log + [Row(Attempt, Some(r.key), None, r.amount, Worker)]
                     && r.amount == TotalMinor(b.lines) - PaidMinor(b) && r.amount > 0
                     && |Counted(b.log)| < 3)
  {
    hide StageOf, Reserved, LastKind, Counted, TotalMinor, PaidMinor, HasRow, Named;
    PendingIsOpen(b.log);
    var r := Reserve(b, newKey, mandates).value;
    Readings(b.log, r.key);
    NextRow(b.log, r.books.log[|b.log|], r.key);
  }

  lemma StartKeepsSafe(engine: Engine, w: World, worker: WorkerId, newKey: Key, mandates: map<AgreementId, bool>)
    requires Safe(w)
    ensures Safe(Do(engine, w, StartCharge(worker, newKey, mandates)))
  {
    hide Reserve, Derived, PaidAsSaid, StageOf, Reserved, Counted, ReservedSinceChange;
    if worker !in w.out && Reserve(w.books, newKey, mandates).Ok? {
      ReservingIs(w.books, w.out, newKey, mandates);
      var r := Reserve(w.books, newKey, mandates).value;
      var log, row := w.books.log, r.books.log[|w.books.log|];
      Readings(log, r.key);
      AskingFollows(w.books, newKey, mandates, 0);
      RowKeepsOrder(log, w.out, row, r.key, w.out[worker := r.key]);
      RowKeepsPayments(log, w.books.payments, row);
      RowKeepsTheLimit(log, row, r.key);
    }
  }

  /** T2 with an answer, typed or the processor's. It is late exactly when an outcome stands; it pays exactly
      when it is the first row of the attempt to say SUCCESS. */
  lemma SettlingIs(b: Books, k: Key, result: Outcome, fromTheProcessor: bool, at: Instant)
    requires !StageOf(b.log, k).Broken? && (fromTheProcessor ==> !StageOf(b.log, k).Closed?)
    requires Settle(b, k, result, fromTheProcessor, at).Ok?
    ensures var after := Settle(b, k, result, fromTheProcessor, at).value;
            var late := StageOf(b.log, k).Settled?;
            var row := Row(if late then Late else OutcomeRow, Some(k), Some(result), 0,
                           if fromTheProcessor then Worker else Operator);
            (late ==> fromTheProcessor) && !Advance(StageOf(b.log, k), row).Broken? && Reserved(b.log, k).Some?
            && after.log == b.log + [row] && after.lines == b.lines
            && after.payments == b.payments
                 + (if result.Success? && !SaysSuccess(b.log, k) then
                      [Payment(Card, Reserved(b.log, k).value, at, Some(k))]
                    else [])
  {
    hide StageOf, Reserved, Recorded, SaysSuccess, HasRow, LastKind, PaidMinor, TotalMinor;
    Readings(b.log, k);
  }

  lemma SettleKeepsSafe(b: Books, out: map<WorkerId, Key>, k: Key, result: Outcome, fromTheProcessor: bool, at: Instant,
                        after: map<WorkerId, Key>)
    requires Safe(World(b, out, map[])) && Settle(b, k, result, fromTheProcessor, at).Ok?
    requires fromTheProcessor ==>
               !StageOf(b.log, k).Closed? && after.Keys <= out.Keys && forall v :: v in after ==>
                                                                                     after[v] == out[v] != k
    requires !fromTheProcessor ==> after == out
    ensures Safe(World(Settle(b, k, result, fromTheProcessor, at).value, after, map[]))
  {
    hide Settle, StageOf, Reserved, SaysSuccess, Counted, TotalMinor, PaidMinor, HasRow, Cards, ReservedSinceChange;
    SettlingIs(b, k, result, fromTheProcessor, at);
    var row := Settle(b, k, result, fromTheProcessor, at).value.log[|b.log|];
    SettlingFollows(b, k, result, fromTheProcessor, at);
    Readings(b.log, k);
    RowKeepsOrder(b.log, out, row, k, after);
    RowKeepsTheLimit(b.log, row, k);
    assert b.payments + [] == b.payments;
    if result.Success? && !SaysSuccess(b.log, k) {
      RowWithItsPayment(b.log, b.payments, row, k, at);
    } else {
      RowKeepsPayments(b.log, b.payments, row);
    }
  }

  /** Whoever is at the processor can always record the answer: T2 refuses it nothing. */
  lemma AnswersAreRecorded(w: World, worker: WorkerId, result: Outcome, at: Instant)
    requires Safe(w) && worker in w.out
    ensures Settle(w.books, w.out[worker], result, true, at).Ok? && !StageOf(w.books.log, w.out[worker]).Closed?
    ensures forall v :: v in w.out - {worker} ==> w.out[v] != w.out[worker]
  {
    Readings(w.books.log, w.out[worker]);
  }

  lemma AnswerKeepsSafe(engine: Engine, w: World, worker: WorkerId, result: Outcome, at: Instant)
    requires Safe(w)
    ensures Safe(Do(engine, w, Answer(worker, result, at)))
  {
    hide Settle, StageOf, Orderly, PaidAsSaid, WithinTheLimit, Derived, RecordException, RecordPayment, RecordReversal,
         Reserve;
    if worker in w.out {
      AnswersAreRecorded(w, worker, result, at);
      SettleKeepsSafe(w.books, w.out, w.out[worker], result, true, at, w.out - {worker});
    }
  }

  lemma NoAnswerKeepsSafe(engine: Engine, w: World, worker: WorkerId)
    requires Safe(w)
    ensures Safe(Do(engine, w, NoAnswer(worker)))
  {
    hide StageOf, SaysSuccess, Counted, Cards, ReservedSinceChange;
    if worker in w.out {
      var k := w.out[worker];
      var row := Row(Unknown, Some(k), None, 0, Worker);
      LoggingFollows(w.books, w.books.log + [row], 0);
      RowKeepsOrder(w.books.log, w.out, row, k, w.out - {worker});
      RowKeepsPayments(w.books.log, w.books.payments, row);
      RowKeepsTheLimit(w.books.log, row, k);
    }
  }

  lemma NewMethodKeepsSafe(w: World)
    requires Safe(w)
    ensures Safe(w.(books := RecordMethodChanged(w.books)))
  {
    hide StageOf, SaysSuccess, Counted, Cards, ReservedSinceChange;
    var log, row := w.books.log, Row(MethodChanged, None, None, 0, Operator);
    forall k: Key ensures StageOf(log + [row], k) == StageOf(log, k) {
      NextRow(log, row, k);
    }
    RowKeepsPayments(log, w.books.payments, row);
    OneMoreRow(log, row);
    LoggingFollows(w.books, log + [row], 0);
    assert forall k: Key :: Open(log + [row], k) <==> Open(log, k);
  }

  lemma ElsewhereKeepsSafe(engine: Engine, w: World, e: Event)
    requires Safe(w) && NotAWorkers(e) && Post(engine, w.books, e).Ok?
    ensures Safe(w.(books := Post(engine, w.books, e).value))
  {
    hide Settle, StageOf, Orderly, PaidAsSaid, WithinTheLimit, Derived, Adjusted, TotalMinor, SubtotalMinor, PaidMinor;
    EventsFollow(engine, w.books, e);
    match e {
      case Received(m, amount, at) => PaymentFromElsewhere(w.books.log, w.books.payments, Payment(m, amount, at, None));
      case Resolved(key, result, at) => SettleKeepsSafe(w.books, w.out, key, result, false, at, w.out);
      case NewMethod => NewMethodKeepsSafe(w);
      case _ =>
    }
  }

  lemma StepsKeepSafe(engine: Engine, w: World, a: Action)
    requires Safe(w)
    ensures Safe(Do(engine, w, a))
  {
    hide Safe, Settle, Reserve, Post;
    match a {
      case StartCharge(worker, newKey, mandates) => StartKeepsSafe(engine, w, worker, newKey, mandates);
      case Answer(worker, result, at) => AnswerKeepsSafe(engine, w, worker, result, at);
      case NoAnswer(worker) => NoAnswerKeepsSafe(engine, w, worker);
      case Elsewhere(e) =>
        if NotAWorkers(e) && Post(engine, w.books, e).Ok? {
          ElsewhereKeepsSafe(engine, w, e);
        }
      case Decide(_, _) => OnlyTheProcessorMoved(w, Do(engine, w, a));
      case Crash(_) => OnlyTheProcessorMoved(w, Do(engine, w, a));
    }
  }

  /** The books are all that the invariant reads, and fewer workers out break nothing. */
  lemma OnlyTheProcessorMoved(w: World, after: World)
    requires Safe(w) && after.books == w.books
    requires after.out.Keys <= w.out.Keys && forall v :: v in after.out ==> after.out[v] == w.out[v]
    ensures Safe(after)
  {}

  /** The books as issued: nothing charged and nothing paid yet. */
  ghost predicate Fresh(issued: Books) {
    Derived(issued) && issued.log == [] && issued.payments == []
  }

  /** In every reachable state -- whoever crashes where, whatever the operator types, whatever the processor
      says -- each key has at most one card payment, for exactly what was reserved and there iff an outcome or
      late row of the key says SUCCESS; at most one attempt is open, and at most one worker is at the processor
      under a key; each attempt's rows are in order; and failures never pass three between method changes. */
  lemma {:induction false} EveryReachableStateIsSafe(engine: Engine, issued: Books, actions: seq<Action>)
    requires Fresh(issued)
    ensures Safe(Reach(engine, issued, actions))
  {
    if actions != [] {
      EveryReachableStateIsSafe(engine, issued, actions[..|actions| - 1]);
      StepsKeepSafe(engine, Reach(engine, issued, actions[..|actions| - 1]), actions[|actions| - 1]);
    }
  }

  // ---------------------------------------------------------------- what an attempt's rows look like

  function KindsOf(log: seq<Row>, key: Key): seq<Kind> {
    if log == [] then []
    else KindsOf(log[..|log| - 1], key) + (if log[|log| - 1].key == Some(key) then [log[|log| - 1].kind] else [])
  }

  /** Answers that did not arrive, each followed by an ask. */
  function Rounds(n: nat): seq<Kind> {
    if n == 0 then [] else Rounds(n - 1) + [Unknown, Ask]
  }

  /** The rows of an attempt, by where it stands: its reservation, `n` rounds, and the end of the last one. */
  predicate Shape(kinds: seq<Kind>, s: Stage, n: nat) {
    var asked := [Attempt] + Rounds(n);
    match s
    case Unasked => kinds == []
    case InFlight => kinds == asked
    case Unsure => kinds == asked + [Unknown]
    case Settled => kinds == asked + [OutcomeRow]
    case Closed => kinds == asked + [Unknown, OutcomeRow] || kinds == asked + [OutcomeRow, Late]
                   || kinds == asked + [OutcomeRow, Unknown]
    case Broken => false
  }

  function RoundsAfter(s: Stage, r: Row, n: nat): nat {
    if s.Unasked? then 0 else if s.Unsure? && r.kind.Ask? then n + 1 else n
  }

  /** Every key's rows: attempt, (unknown, ask) any number of times, and then nothing, an unknown, an unknown
      and the outcome, or the outcome and at most one late or unknown row. */
  lemma {:induction false} RowsAreInOrder(log: seq<Row>, key: Key)
    requires !StageOf(log, key).Broken?
    ensures exists n: nat :: Shape(KindsOf(log, key), StageOf(log, key), n)
  {
    if log == [] {
      assert Shape(KindsOf(log, key), StageOf(log, key), 0);
    } else {
      var front, r := log[..|log| - 1], log[|log| - 1];
      RowsAreInOrder(front, key);
      var n: nat :| Shape(KindsOf(front, key), StageOf(front, key), n);
      if r.key == Some(key) {
        ShapeAdvances(KindsOf(front, key), StageOf(front, key), n, r);
        var m := RoundsAfter(StageOf(front, key), r, n);
        assert Shape(KindsOf(log, key), StageOf(log, key), m);
      } else {
        assert KindsOf(front, key) + [] == KindsOf(front, key);
        assert Shape(KindsOf(log, key), StageOf(log, key), n);
      }
    }
  }

  lemma ShapeAdvances(kinds: seq<Kind>, s: Stage, n: nat, r: Row)
    requires Shape(kinds, s, n) && !Advance(s, r).Broken?
    ensures Shape(kinds + [r.kind], Advance(s, r), RoundsAfter(s, r, n))
  {
    var asked := [Attempt] + Rounds(n);
    match s {
      case Unasked => assert Rounds(0) == [];
      case Unsure =>
        assert asked + [Unknown] + [Ask] == [Attempt] + Rounds(n + 1);
        assert asked + [Unknown] + [OutcomeRow] == asked + [Unknown, OutcomeRow];
      case Settled =>
        assert asked + [OutcomeRow] + [Late] == asked + [OutcomeRow, Late];
        assert asked + [OutcomeRow] + [Unknown] == asked + [OutcomeRow, Unknown];
      case _ =>
    }
  }

  // ---------------------------------------------------------------- what the retry count comes to

  lemma {:induction false} PrefixesAreInOrder(log: seq<Row>, j: nat, k: Key)
    requires j <= |log| && !StageOf(log, k).Broken?
    ensures !StageOf(log[..j], k).Broken?
    decreases |log|
  {
    if j == |log| {
      assert log[..j] == log;
    } else {
      PrefixesAreInOrder(log[..|log| - 1], j, k);
      assert log[..|log| - 1][..j] == log[..j];
    }
  }

  /** A row of an attempt, after what came before it. */
  lemma RowInItsPlace(log: seq<Row>, j: nat, k: Key)
    requires j < |log| && log[j].key == Some(k) && !StageOf(log, k).Broken?
    ensures !Advance(StageOf(log[..j], k), log[j]).Broken? && !StageOf(log[..j], k).Broken?
  {
    PrefixesAreInOrder(log, j, k);
    PrefixesAreInOrder(log, j + 1, k);
    assert log[..j + 1][..j] == log[..j];
  }

  lemma OrderlyLogsFollowAttempts(log: seq<Row>, out: map<WorkerId, Key>)
    requires Orderly(log, out)
    ensures OutcomesFollowAttempts(log)
  {
    forall j | 0 <= j < |log| && log[j].kind.OutcomeRow?
      ensures log[j].outcome.Some? && exists i :: 0 <= i < j && IsReservation(log[i]) && log[i].key == log[j].key {
      var k := log[j].key.value;
      RowInItsPlace(log, j, k);
      Readings(log[..j], k);
      var i :| 0 <= i < j && log[..j][i].kind.Attempt? && log[..j][i].key == Some(k);
      assert IsReservation(log[i]) && log[i].key == log[j].key;
    }
    forall i, j | 0 <= i < j < |log| && IsReservation(log[i]) && IsReservation(log[j])
      ensures log[i].key != log[j].key
    {
      var k := log[j].key.value;
      RowInItsPlace(log, j, k);
      Readings(log[..j], k);
      assert log[..j][i] == log[i];
    }
  }

  /** In every reachable state the recorded fold counts the non-success outcomes whose reservation was made after
      the last method change, whatever was recorded in between, and there are never more than three. */
  lemma RetriesInEveryReachableState(engine: Engine, issued: Books, actions: seq<Action>)
    requires Fresh(issued)
    ensures var log := Reach(engine, issued, actions).books.log;
            OutcomesFollowAttempts(log)
            && (set j | 0 <= j < |log| && log[j].kind.OutcomeRow? && !log[j].outcome.value.Success?
                        && ReservedUnderCurrentMethod(log, j)) == Counted(log)
            && |Counted(log)| <= 3
  {
    hide Counted, OutcomesFollowAttempts, StageOf, Do;
    EveryReachableStateIsSafe(engine, issued, actions);
    var w := Reach(engine, issued, actions);
    OrderlyLogsFollowAttempts(w.books.log, w.out);
    FoldCountsByReservation(w.books.log);
  }

  /** The agreements that stand behind an invoice: those its lines name and the store holds. */
  lemma NamedAre(lines: seq<Line>, mandates: map<AgreementId, bool>)
    ensures (forall a :: a in Named(lines) ==> a !in mandates)
            <==> !(exists l, a :: l in lines && l.agreement == Some(a) && a in mandates)
    ensures (exists a :: a in Named(lines) && a in mandates && !mandates[a])
            <==> exists l, a :: l in lines && l.agreement == Some(a) && a in mandates && !mandates[a]
  {
    forall a | a in Named(lines) ensures exists l :: l in lines && l.agreement == Some(a) {
      var i :| 0 <= i < |lines| && lines[i].agreement == Some(a);
      assert lines[i] in lines;
    }
    forall l, a | l in lines && l.agreement == Some(a) ensures a in Named(lines) {
      var i :| 0 <= i < |lines| && lines[i] == l;
    }
  }

  /** When T1 lets a charge through: to ask again where the last word on the open attempt is unknown, or, with
      nothing open, a fresh reservation where there is an agreement, every one with a mandate, fewer than three
      failures on this method, something owed, and a key never used. */
  lemma WhenAChargeStarts(b: Books, out: map<WorkerId, Key>, newKey: Key, mandates: map<AgreementId, bool>)
    requires Orderly(b.log, out)
    ensures Reserve(b, newKey, mandates).Ok?
            <==> (exists k: Key :: StageOf(b.log, k).Unsure?)
                 || ((forall k: Key :: !Open(b.log, k))
                     && (exists l, a :: l in b.lines && l.agreement == Some(a) && a in mandates)
                     && !(exists l, a :: l in b.lines && l.agreement == Some(a) && a in mandates && !mandates[a])
                     && |Counted(b.log)| < 3 && PaidMinor(b) < TotalMinor(b.lines)
                     && StageOf(b.log, newKey).Unasked?)
  {
    hide StageOf, Reserved, LastKind, Counted, TotalMinor, PaidMinor, HasRow, Named;
    PendingIsOpen(b.log);
    Readings(b.log, newKey);
    NamedAre(b.lines, mandates);
    if Pending(b.log).Some? {
      Readings(b.log, b.log[Pending(b.log).value].key.value);
    }
    forall k: Key | StageOf(b.log, k).Unsure? ensures Open(b.log, k) {}
  }

  /** And what it says otherwise: that an attempt may be in flight, or the first of these that is so. */
  lemma WhyAChargeIsRefused(b: Books, out: map<WorkerId, Key>, newKey: Key, mandates: map<AgreementId, bool>)
    requires Orderly(b.log, out) && Reserve(b, newKey, mandates).Refused?
    ensures var why := Reserve(b, newKey, mandates).error;
            if exists k: Key :: StageOf(b.log, k).InFlight? then why == AttemptUnresolved
            else if !(exists l, a :: l in b.lines && l.agreement == Some(a) && a in mandates)
            then why == InvoiceNamesNoAgreement
            else if exists l, a :: l in b.lines && l.agreement == Some(a) && a in mandates && !mandates[a]
            then why == NoMandate
            else if |Counted(b.log)| >= 3 then why == RetriesExhausted
            else if PaidMinor(b) >= TotalMinor(b.lines) then why == NothingOwed
            else why == KeyTaken && HasRow(b.log, newKey, Attempt)
  {
    hide StageOf, Reserved, LastKind, Counted, TotalMinor, PaidMinor, HasRow, Named;
    PendingIsOpen(b.log);
    NamedAre(b.lines, mandates);
    if Pending(b.log).Some? {
      Readings(b.log, b.log[Pending(b.log).value].key.value);
    }
    forall k: Key | StageOf(b.log, k).InFlight? ensures Open(b.log, k) {}
  }

  /** What an unknown row is for: the attempt in flight may be asked again, by anyone, under its own key and for what
      it reserved, and nothing else may be charged meanwhile. */
  lemma TheUnansweredIsAskedAgain(b: Books, out: map<WorkerId, Key>, k: Key, newKey: Key,
                                  mandates: map<AgreementId, bool>)
    requires Orderly(b.log, out) && StageOf(b.log, k).InFlight?
    ensures Reserve(b, newKey, mandates) == Refused(AttemptUnresolved)
    ensures var again := Reserve(RecordUnknown(b, k), newKey, mandates);
            again.Ok? && again.value.key == k && Some(again.value.amount) == Reserved(b.log, k) && again.value.resumed
            && StageOf(again.value.books.log, k).InFlight?
  {
    hide Reserved, LastKind, Counted, TotalMinor, PaidMinor, HasRow, Named, StageOf;
    var row := Row(Unknown, Some(k), None, 0, Worker);
    var log := b.log + [row];
    WhyAChargeInFlight(b, k, newKey, mandates, out);
    forall j: Key ensures StageOf(log, j) == (if j == k then Unsure else StageOf(b.log, j)) {
      NextRow(b.log, row, j);
    }
    NextRow(b.log, row, k);
    forall j: Key, i: Key | Open(log, j) && Open(log, i) ensures j == i {
      assert Open(b.log, j) && Open(b.log, i);
    }
    assert Orderly(log, map[]);
    PendingIsOpen(log);
    Readings(log, k);
    assert Open(log, k);
    NextRow(log, Row(Ask, Some(k), None, 0, Worker), k);
    ReservingIs(RecordUnknown(b, k), map[], newKey, mandates);
  }

  lemma WhyAChargeInFlight(b: Books, k: Key, newKey: Key, mandates: map<AgreementId, bool>, out: map<WorkerId, Key>)
    requires Orderly(b.log, out) && StageOf(b.log, k).InFlight?
    ensures Reserve(b, newKey, mandates) == Refused(AttemptUnresolved)
  {
    hide Reserved, LastKind, Counted, TotalMinor, PaidMinor, HasRow, Named, StageOf;
    PendingIsOpen(b.log);
    assert Open(b.log, k);
    Readings(b.log, b.log[Pending(b.log).value].key.value);
  }

  /** A crash leaves the attempt in flight with nobody at it: no worker may charge the invoice until the operator has
      said what became of it, and the operator may. */
  lemma ACrashWaitsForTheOperator(engine: Engine, w: World, worker: WorkerId, newKey: Key,
                                  mandates: map<AgreementId, bool>, result: Outcome, at: Instant)
    requires Safe(w) && worker in w.out && StageOf(w.books.log, w.out[worker]).InFlight?
    ensures var k, after := w.out[worker], Do(engine, w, Crash(worker));
            after.books == w.books && (forall v :: v in after.out <==> v in w.out && v != worker)
            && (forall v :: v in after.out ==> after.out[v] == w.out[v] != k)
            && (forall v :: Do(engine, after, StartCharge(v, newKey, mandates)) == after)
            && StageOf(Do(engine, after, Elsewhere(Resolved(k, result, at))).books.log, k).Settled?
  {
    hide Reserve, StageOf, Counted, TotalMinor, PaidMinor, HasRow, Named, Reserved, Recorded;
    var k := w.out[worker];
    WhyAChargeInFlight(w.books, k, newKey, mandates, w.out);
    Readings(w.books.log, k);
    NextRow(w.books.log, Row(OutcomeRow, Some(k), Some(result), 0, Operator), k);
  }

  // ---------------------------------------------------------------- a run of the protocol is a run of the ledger

  /** The transaction a step commits, if it commits one. */
  function EventOf(w: World, a: Action): Option<Event> {
    match a
    case StartCharge(worker, newKey, mandates) => if worker in w.out then None else Some(Asked(newKey, mandates))
    case Answer(worker, result, at) => if worker in w.out then Some(Answered(w.out[worker], result, at)) else None
    case NoAnswer(worker) => if worker in w.out then Some(Unanswered(w.out[worker])) else None
    case Elsewhere(e) => if NotAWorkers(e) then Some(e) else None
    case _ => None
  }

  function EventsOf(engine: Engine, issued: Books, actions: seq<Action>): seq<Event> {
    if actions == [] then []
    else
      var front := actions[..|actions| - 1];
      match EventOf(Reach(engine, issued, front), actions[|actions| - 1])
      case Some(e) => EventsOf(engine, issued, front) + [e]
      case None => EventsOf(engine, issued, front)
  }

  lemma StepIsItsEvent(engine: Engine, w: World, a: Action)
    ensures Do(engine, w, a).books
            == (match EventOf(w, a) case Some(e) => After(engine, w.books, e) case None => w.books)
  {
    hide Reserve, Settle, RecordException, RecordPayment, RecordReversal;
  }

  /** So whatever workers, crashes and the processor do, `paid_at` is set exactly while the invoice is covered,
      at the instant of the event -- card settlements and late successes among them -- that last made it so. */
  lemma {:induction false} ChargingKeepsPaidAt(engine: Engine, issued: Books, actions: seq<Action>)
    requires Derived(issued)
    ensures var w, events := Reach(engine, issued, actions), EventsOf(engine, issued, actions);
            w.books == Run(engine, issued, events) && Derived(w.books)
            && w.books.paidAt == LastCovered(engine, issued, events) && w.books.dueAt == issued.dueAt
  {
    hide Do, After, Derived, LastCovered;
    if actions != [] {
      var front, a := actions[..|actions| - 1], actions[|actions| - 1];
      ChargingKeepsPaidAt(engine, issued, front);
      StepIsItsEvent(engine, Reach(engine, issued, front), a);
      var events := EventsOf(engine, issued, front);
      if EventOf(Reach(engine, issued, front), a).Some? {
        assert (events + [EventOf(Reach(engine, issued, front), a).value])[..|events|] == events;
      }
    }
    PaidAtOverARun(engine, issued, EventsOf(engine, issued, actions));
  }
}
