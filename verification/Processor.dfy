/** What the charge protocol gives against a processor that moves money at most once per key and answers truly:
    `charging.py` with nothing assumed of crashes, lost answers or the order of steps. */
module Processor {
  import opened Garages
  import opened Agreements
  import opened Lines
  import opened Taxes
  import opened ChargeLog
  import opened Ledger
  import opened Charging
  import opened Options

  predicate Moved(w: World, k: Key) {
    k in w.decided && w.decided[k]
  }

  /** The processor's answer is what it decided. */
  predicate Truthful(w: World, a: Action) {
    a.Answer? && a.worker in w.out ==>
      w.out[a.worker] in w.decided && (a.result.Success? <==> w.decided[w.out[a.worker]])
  }

  /** And so is the operator's, typed on an attempt that is still pending. */
  predicate Agreeing(w: World, a: Action) {
    Truthful(w, a)
    && (a.Elsewhere? && a.event.Resolved? && Open(w.books.log, a.event.key) ==>
          a.event.key in w.decided && (a.event.result.Success? <==> w.decided[a.event.key]))
  }

  ghost predicate TruthfulRun(engine: Engine, issued: Books, actions: seq<Action>) {
    actions == []
    || (TruthfulRun(engine, issued, actions[..|actions| - 1])
        && Truthful(Reach(engine, issued, actions[..|actions| - 1]), actions[|actions| - 1]))
  }

  ghost predicate AgreeingRun(engine: Engine, issued: Books, actions: seq<Action>) {
    actions == []
    || (AgreeingRun(engine, issued, actions[..|actions| - 1])
        && Agreeing(Reach(engine, issued, actions[..|actions| - 1]), actions[|actions| - 1]))
  }

  // ---------------------------------------------------------------- a truthful processor, any operator

  predicate HasOutcome(log: seq<Row>, k: Key) {
    StageOf(log, k).Settled? || StageOf(log, k).Closed?
  }

  predicate AffirmedBy(r: Row, k: Key) {
    r.key == Some(k) && r.kind.OutcomeRow? && r.recordedBy.Operator? && r.outcome == Some(Success)
  }

  /** The operator typed a success. */
  predicate OperatorAffirmed(log: seq<Row>, k: Key) {
    exists i :: 0 <= i < |log| && AffirmedBy(log[i], k)
  }

  /** The operator typed a non-success, whatever was recorded since. */
  predicate EverDenied(log: seq<Row>, k: Key) {
    exists i :: 0 <= i < |log| && DeniedBy(log[i], k)
  }

  lemma TypedNext(log: seq<Row>, r: Row, k: Key)
    ensures OperatorAffirmed(log + [r], k) <==> OperatorAffirmed(log, k) || AffirmedBy(r, k)
    ensures EverDenied(log + [r], k) <==> EverDenied(log, k) || DeniedBy(r, k)
  {
    var all := log + [r];
    assert all[|log|] == r && forall i :: 0 <= i < |log| ==> all[i] == log[i];
  }

  /** An attempt with an outcome and no payment is one the processor refused, or one the operator denied; one with
      a payment is one it moved money under, or one the operator affirmed. */
  ghost predicate Told(w: World) {
    (forall k: Key :: HasOutcome(w.books.log, k) && !SaysSuccess(w.books.log, k) ==>
       OperatorDenied(w.books.log, k) || (k in w.decided && !w.decided[k]))
    && (forall k: Key :: SaysSuccess(w.books.log, k) ==> OperatorAffirmed(w.books.log, k) || Moved(w, k))
    && (forall k :: k in w.decided ==> Reserved(w.books.log, k).Some?)
  }

  /** A row of one attempt, and the rest untouched. */
  lemma RowKeepsTold(w: World, after: World, r: Row, k: Key)
    requires Told(w) && after.books.log == w.books.log + [r] && r.key == Some(k) && after.decided == w.decided
    requires HasOutcome(after.books.log, k) && !SaysSuccess(after.books.log, k) ==>
               OperatorDenied(after.books.log, k) || (k in w.decided && !w.decided[k])
    requires SaysSuccess(after.books.log, k) ==> OperatorAffirmed(after.books.log, k) || Moved(w, k)
    ensures Told(after)
  {
    hide OperatorAffirmed, EverDenied;
    StagesNext(w.books.log, r, k);
    forall j: Key
      ensures Reserved(w.books.log, j).Some? ==> Reserved(after.books.log, j).Some?
      ensures OperatorAffirmed(w.books.log, j) ==> OperatorAffirmed(after.books.log, j)
      ensures j != k ==> SaysSuccess(after.books.log, j) == SaysSuccess(w.books.log, j)
                         && OperatorDenied(after.books.log, j) == OperatorDenied(w.books.log, j)
    {
      NextRow(w.books.log, r, j);
      TypedNext(w.books.log, r, j);
    }
  }

  lemma SettlingKeepsTold(w: World, after: World, k: Key, result: Outcome, fromTheProcessor: bool, at: Instant)
    requires Safe(w) && Told(w) && Settle(w.books, k, result, fromTheProcessor, at).Ok?
    requires after.books == Settle(w.books, k, result, fromTheProcessor, at).value && after.decided == w.decided
    requires fromTheProcessor ==>
               !StageOf(w.books.log, k).Closed? && k in w.decided && (result.Success? <==> w.decided[k])
    ensures Told(after)
  {
    hide Settle, StageOf, SaysSuccess, OperatorDenied, OperatorAffirmed, Counted, Cards, ReservedSinceChange, HasRow,
         Reserved;
    SettlingIs(w.books, k, result, fromTheProcessor, at);
    Readings(w.books.log, k);
    var row := after.books.log[|w.books.log|];
    NextRow(w.books.log, row, k);
    TypedNext(w.books.log, row, k);
    RowKeepsTold(w, after, row, k);
  }

  lemma StartingIs(engine: Engine, w: World, a: Action)
    requires Safe(w) && a.StartCharge?
    ensures var after := Do(engine, w, a);
            after == w
            || (Reserve(w.books, a.newKey, a.mandates).Ok?
                && var r := Reserve(w.books, a.newKey, a.mandates).value;
                   after.books == r.books && after.decided == w.decided
                   && r.books.log == w.books.log + [r.books.log[|w.books.log|]]
                   && r.books.log[|w.books.log|].key == Some(r.key)
                   && StageOf(after.books.log, r.key).InFlight?)
  {
    hide Reserve, StageOf, SaysSuccess, Counted, Cards, ReservedSinceChange;
    if Reserve(w.books, a.newKey, a.mandates).Ok? {
      ReservingIs(w.books, w.out, a.newKey, a.mandates);
      var r := Reserve(w.books, a.newKey, a.mandates).value;
      NextRow(w.books.log, r.books.log[|w.books.log|], r.key);
    }
  }

  lemma NoSuccessYet(w: World, k: Key)
    requires StageOf(w.books.log, k).InFlight?
    ensures !SaysSuccess(w.books.log, k)
  {
    Readings(w.books.log, k);
  }

  lemma StepsKeepTold(engine: Engine, w: World, a: Action)
    requires Safe(w) && Told(w) && Truthful(w, a)
    ensures Told(Do(engine, w, a))
  {
    hide Settle, Reserve, StageOf, SaysSuccess, OperatorDenied, OperatorAffirmed, Counted, Cards, ReservedSinceChange,
         Reserved, HasRow;
    var after := Do(engine, w, a);
    match a {
      case StartCharge(worker, newKey, mandates) =>
        StartingIs(engine, w, a);
        if after != w {
          var r := Reserve(w.books, newKey, mandates).value;
          NoSuccessYet(after, r.key);
          RowKeepsTold(w, after, r.books.log[|w.books.log|], r.key);
        }
      case Answer(worker, result, at) =>
        if worker in w.out {
          AnswersAreRecorded(w, worker, result, at);
          SettlingKeepsTold(w, after, w.out[worker], result, true, at);
        }
      case NoAnswer(worker) =>
        if worker in w.out {
          var k, row := w.out[worker], Row(Unknown, Some(w.out[worker]), None, 0, Worker);
          NextRow(w.books.log, row, k);
          TypedNext(w.books.log, row, k);
          RowKeepsTold(w, after, row, k);
        }
      case Elsewhere(e) =>
        if NotAWorkers(e) && Post(engine, w.books, e).Ok? {
          ElsewhereKeepsTold(engine, w, e);
        }
      case _ =>
    }
  }

  lemma ElsewhereKeepsTold(engine: Engine, w: World, e: Event)
    requires Safe(w) && Told(w) && NotAWorkers(e) && Post(engine, w.books, e).Ok?
    ensures Told(w.(books := Post(engine, w.books, e).value))
  {
    hide Settle, StageOf, SaysSuccess, OperatorDenied, OperatorAffirmed, Counted, Cards, ReservedSinceChange, Reserved,
         Adjusted, TotalMinor, PaidMinor;
    var after := w.(books := Post(engine, w.books, e).value);
    match e {
      case Resolved(key, result, at) => SettlingKeepsTold(w, after, key, result, false, at);
      case NewMethod =>
        forall k: Key
          ensures StageOf(after.books.log, k) == StageOf(w.books.log, k)
                  && SaysSuccess(after.books.log, k) == SaysSuccess(w.books.log, k)
          ensures OperatorDenied(after.books.log, k) == OperatorDenied(w.books.log, k)
          ensures OperatorAffirmed(w.books.log, k) ==> OperatorAffirmed(after.books.log, k)
          ensures Reserved(after.books.log, k) == Reserved(w.books.log, k)
        {
          NextRow(w.books.log, Row(MethodChanged, None, None, 0, Operator), k);
          TypedNext(w.books.log, Row(MethodChanged, None, None, 0, Operator), k);
        }
      case _ =>
    }
  }

  lemma {:induction false} TruthfulRunsAreTold(engine: Engine, issued: Books, actions: seq<Action>)
    requires Fresh(issued) && TruthfulRun(engine, issued, actions)
    ensures Safe(Reach(engine, issued, actions)) && Told(Reach(engine, issued, actions))
  {
    EveryReachableStateIsSafe(engine, issued, actions);
    if actions != [] {
      TruthfulRunsAreTold(engine, issued, actions[..|actions| - 1]);
      StepsKeepTold(engine, Reach(engine, issued, actions[..|actions| - 1]), actions[|actions| - 1]);
    }
  }

  /** Money that moved has no card payment exactly while its attempt is still open, or where the operator typed
      a non-success and no answer of the processor's has been recorded after it. */
  lemma MovedButUnpaid(engine: Engine, issued: Books, actions: seq<Action>, k: Key)
    requires Fresh(issued) && TruthfulRun(engine, issued, actions)
    ensures var w := Reach(engine, issued, actions);
            Moved(w, k) ==>
              (Cards(w.books.payments, k) == 0 <==> Open(w.books.log, k) || OperatorDenied(w.books.log, k))
  {
    TruthfulRunsAreTold(engine, issued, actions);
    Readings(Reach(engine, issued, actions).books.log, k);
  }

  // ---------------------------------------------------------------- and an operator who agrees with it

  /** Every attempt with an outcome was decided, and its rows say so. */
  ghost predicate Agreed(w: World) {
    (forall k: Key :: HasOutcome(w.books.log, k) ==> k in w.decided && (SaysSuccess(w.books.log, k) <==> w.decided[k]))
    && (forall k: Key :: EverDenied(w.books.log, k) ==> !Moved(w, k) && HasOutcome(w.books.log, k))
    && (forall k :: k in w.decided ==> Reserved(w.books.log, k).Some?)
  }

  lemma RowKeepsAgreed(w: World, after: World, r: Row, k: Key)
    requires Agreed(w) && after.books.log == w.books.log + [r] && r.key == Some(k) && after.decided == w.decided
    requires HasOutcome(after.books.log, k) ==> k in w.decided && (SaysSuccess(after.books.log, k) <==> w.decided[k])
    requires EverDenied(after.books.log, k) ==> !Moved(w, k) && HasOutcome(after.books.log, k)
    ensures Agreed(after)
  {
    hide EverDenied;
    StagesNext(w.books.log, r, k);
    forall j: Key
      ensures Reserved(w.books.log, j).Some? ==> Reserved(after.books.log, j).Some?
      ensures j != k ==> SaysSuccess(after.books.log, j) == SaysSuccess(w.books.log, j)
                         && EverDenied(after.books.log, j) == EverDenied(w.books.log, j)
    {
      NextRow(w.books.log, r, j);
      TypedNext(w.books.log, r, j);
    }
  }

  lemma SettlingKeepsAgreed(w: World, after: World, k: Key, result: Outcome, fromTheProcessor: bool, at: Instant)
    requires Safe(w) && Agreed(w) && Settle(w.books, k, result, fromTheProcessor, at).Ok?
    requires after.books == Settle(w.books, k, result, fromTheProcessor, at).value && after.decided == w.decided
    requires fromTheProcessor ==> !StageOf(w.books.log, k).Closed?
    requires fromTheProcessor || Open(w.books.log, k) ==> k in w.decided && (result.Success? <==> w.decided[k])
    ensures Agreed(after)
    ensures Open(w.books.log, k) || after.books.payments == w.books.payments
  {
    hide Settle, StageOf, SaysSuccess, Counted, Cards, ReservedSinceChange, HasRow, Reserved;
    SettlingIs(w.books, k, result, fromTheProcessor, at);
    Readings(w.books.log, k);
    var row := after.books.log[|w.books.log|];
    NextRow(w.books.log, row, k);
    TypedNext(w.books.log, row, k);
    RowKeepsAgreed(w, after, row, k);
  }

  lemma StartsUndenied(w: World, after: World, r: Row, k: Key)
    requires Agreed(w) && r.key == Some(k) && after.books.log == w.books.log + [r]
    requires StageOf(after.books.log, k).InFlight? && (forall j: Key :: !StageOf(w.books.log, j).Broken?)
    ensures !EverDenied(after.books.log, k)
  {
    hide EverDenied;
    NextRow(w.books.log, r, k);
    TypedNext(w.books.log, r, k);
  }

  lemma StepsKeepAgreed(engine: Engine, w: World, a: Action)
    requires Safe(w) && Agreed(w) && Agreeing(w, a)
    ensures Agreed(Do(engine, w, a))
  {
    hide Settle, Reserve, StageOf, SaysSuccess, Counted, Cards, ReservedSinceChange, Reserved, HasRow;
    var after := Do(engine, w, a);
    match a {
      case StartCharge(worker, newKey, mandates) =>
        StartingIs(engine, w, a);
        if after != w {
          var r := Reserve(w.books, newKey, mandates).value;
          StartsUndenied(w, after, r.books.log[|w.books.log|], r.key);
          RowKeepsAgreed(w, after, r.books.log[|w.books.log|], r.key);
        }
      case Answer(worker, result, at) =>
        if worker in w.out {
          AnswersAreRecorded(w, worker, result, at);
          SettlingKeepsAgreed(w, after, w.out[worker], result, true, at);
        }
      case NoAnswer(worker) =>
        if worker in w.out {
          var k, row := w.out[worker], Row(Unknown, Some(w.out[worker]), None, 0, Worker);
          NextRow(w.books.log, row, k);
          TypedNext(w.books.log, row, k);
          RowKeepsAgreed(w, after, row, k);
        }
      case Elsewhere(e) =>
        if NotAWorkers(e) && Post(engine, w.books, e).Ok? {
          ElsewhereKeepsAgreed(engine, w, e);
        }
      case _ =>
    }
  }

  lemma ElsewhereKeepsAgreed(engine: Engine, w: World, e: Event)
    requires Safe(w) && Agreed(w) && Agreeing(w, Elsewhere(e)) && NotAWorkers(e) && Post(engine, w.books, e).Ok?
    ensures Agreed(w.(books := Post(engine, w.books, e).value))
  {
    hide Settle, StageOf, SaysSuccess, Counted, Cards, ReservedSinceChange, Reserved, Adjusted, TotalMinor, PaidMinor;
    var after := w.(books := Post(engine, w.books, e).value);
    match e {
      case Resolved(key, result, at) => SettlingKeepsAgreed(w, after, key, result, false, at);
      case NewMethod =>
        forall k: Key
          ensures StageOf(after.books.log, k) == StageOf(w.books.log, k)
                  && SaysSuccess(after.books.log, k) == SaysSuccess(w.books.log, k)
          ensures EverDenied(after.books.log, k) == EverDenied(w.books.log, k)
          ensures Reserved(after.books.log, k) == Reserved(w.books.log, k)
        {
          NextRow(w.books.log, Row(MethodChanged, None, None, 0, Operator), k);
          TypedNext(w.books.log, Row(MethodChanged, None, None, 0, Operator), k);
        }
      case _ =>
    }
  }

  lemma {:induction false} AgreeingRunsAreAgreed(engine: Engine, issued: Books, actions: seq<Action>)
    requires Fresh(issued) && AgreeingRun(engine, issued, actions)
    ensures Safe(Reach(engine, issued, actions)) && Agreed(Reach(engine, issued, actions))
  {
    EveryReachableStateIsSafe(engine, issued, actions);
    if actions != [] {
      AgreeingRunsAreAgreed(engine, issued, actions[..|actions| - 1]);
      StepsKeepAgreed(engine, Reach(engine, issued, actions[..|actions| - 1]), actions[|actions| - 1]);
    }
  }

  /** Once an attempt is no longer open, money moved under it exactly if it has its payment; so a fresh
      reservation is for the exact positive balance, with every older key that moved money already paid. */
  lemma FreshReservationsAreExact(engine: Engine, issued: Books, actions: seq<Action>, newKey: Key,
                                  mandates: map<AgreementId, bool>, k: Key)
    requires Fresh(issued) && AgreeingRun(engine, issued, actions)
    ensures var w := Reach(engine, issued, actions);
            (!Open(w.books.log, k) ==> (Moved(w, k) <==> Cards(w.books.payments, k) == 1))
            && match Reserve(w.books, newKey, mandates)
               case Refused(_) => true
               case Ok(r) => !r.resumed ==>
                 r.amount == TotalMinor(w.books.lines) - PaidMinor(w.books) && r.amount > 0
                 && (Moved(w, k) <==> Cards(w.books.payments, k) == 1)
  {
    hide TotalMinor, PaidMinor;
    AgreeingRunsAreAgreed(engine, issued, actions);
    var w := Reach(engine, issued, actions);
    Readings(w.books.log, k);
    if Reserve(w.books, newKey, mandates).Ok? {
      ReservingIs(w.books, w.out, newKey, mandates);
    }
  }
}
