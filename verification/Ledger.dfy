/** One invoice's books: its lines, payments, reversals, owner exceptions, charge log and `paid_at`, and what
    each money event of `payments.py`, `exceptions_store.py` and `charging.py` does to them.

    An event is one transaction under the invoice lock: it commits whole, or is refused and writes nothing.
    `Sessions` derives that from the lock and the rollback of `locked_invoice`. */
module Ledger {
  import opened Garages
  import opened Agreements
  import opened Lines
  import opened Taxes
  import opened ChargeLog
  import opened Options

  datatype Method = Card | Cheque | Ach
  datatype Reason = BouncedCheque | AchReturned | Chargeback | ProcessorReversed

  predicate ReasonFits(m: Method, r: Reason) {
    match m
    case Cheque => r.BouncedCheque?
    case Ach => r.AchReturned?
    case Card => r.Chargeback? || r.ProcessorReversed?
  }

  /** `attempt` is the charge attempt a card payment settles; no other payment has one. */
  datatype Payment = Payment(means: Method, amount: int, receivedAt: Instant, attempt: Option<Key>)

  datatype ExceptionKind = ExtendGrace | WaiveFee | Credit | Refund | Block | Unblock {
    predicate NeedsAnAmount() {
      WaiveFee? || Credit? || Refund?
    }

    predicate LandsALine() {
      WaiveFee? || Credit?
    }
  }

  datatype OwnerException = OwnerException(kind: ExceptionKind, amount: int, recordedAt: Instant)

  /** `reversals` maps a payment's position to the instant it was reversed: one reversal per payment. */
  datatype Books = Books(
    lines: seq<Line>, payments: seq<Payment>, reversals: map<nat, Instant>, exceptions: seq<OwnerException>,
    log: seq<Row>, taxSet: Option<TaxSet>, dueAt: Instant, paidAt: Option<Instant>)

  datatype Refusal =
    | CardEntersThroughTheCharge | AmountNotPositive | PaymentNotFound | ReasonMismatch | AlreadyReversed
    | AdjustmentExceedsTotal | AttemptUnresolved | InvoiceNamesNoAgreement | NoMandate | RetriesExhausted
    | NothingOwed | KeyTaken | AttemptNotFound | AlreadyResolved

  type Posted = Result<Books, Refusal>

  // ---------------------------------------------------------------- the derivation

  function UnreversedSum(payments: seq<Payment>, reversals: map<nat, Instant>): int {
    if payments == [] then 0
    else
      var last := |payments| - 1;
      UnreversedSum(payments[..last], reversals) + (if last in reversals then 0 else payments[last].amount)
  }

  function PaidMinor(b: Books): int {
    UnreversedSum(b.payments, b.reversals)
  }

  /** Paid means this and nothing else: the unreversed payments reach the total of the lines. */
  predicate IsCovered(b: Books) {
    PaidMinor(b) >= TotalMinor(b.lines)
  }

  function OverpaidMinor(b: Books): int {
    if PaidMinor(b) > TotalMinor(b.lines) then PaidMinor(b) - TotalMinor(b.lines) else 0
  }

  /** `rederive_paid_at`: stamp on becoming covered, clear on ceasing to be, otherwise leave the instant. */
  function Rederive(b: Books, at: Instant): Books {
    if IsCovered(b) && b.paidAt.None? then b.(paidAt := Some(at))
    else if !IsCovered(b) && b.paidAt.Some? then b.(paidAt := None)
    else b
  }

  /** The invoice as `_persist` writes it: the taxed lines, then `paid_at` derived at the issue instant. */
  function Issue(engine: Engine, priced: seq<Line>, chosen: Option<TaxSet>, dueAt: Instant,
                 now: Instant): Result<Books, TaxError>
  {
    match TaxAnInvoice(engine, priced, chosen)
    case Refused(e) => Refused(e)
    case Ok(lines) => Ok(Rederive(Books(lines, [], map[], [], [], chosen, dueAt, None), now))
  }

  // ---------------------------------------------------------------- payments, reversals, exceptions

  function InsertPayment(b: Books, m: Method, amount: int, at: Instant, attempt: Option<Key>): Books {
    b.(payments := b.payments + [Payment(m, amount, at, attempt)])
  }

  function RecordPayment(b: Books, m: Method, amount: int, at: Instant): Posted {
    if m.Card? then Refused(CardEntersThroughTheCharge)
    else if amount <= 0 then Refused(AmountNotPositive)
    else Ok(Rederive(InsertPayment(b, m, amount, at, None), at))
  }

  function RecordReversal(b: Books, payment: nat, reason: Reason, at: Instant): Posted {
    if payment >= |b.payments| then Refused(PaymentNotFound)
    else if !ReasonFits(b.payments[payment].means, reason) then Refused(ReasonMismatch)
    else if payment in b.reversals then Refused(AlreadyReversed)
    else Ok(Rederive(b.(reversals := b.reversals[payment := at]), at))
  }

  /** The agreement an adjustment is put under: that of the first non-tax line. */
  function FirstPriced(lines: seq<Line>): Option<Line> {
    if lines == [] then None
    else
      var front := FirstPriced(lines[..|lines| - 1]);
      if front.Some? then front
      else if lines[|lines| - 1].kind.Tax? then None
      else Some(lines[|lines| - 1])
  }

  function AdjustmentLine(lines: seq<Line>, amount: int, e: ExceptionId): Line {
    match FirstPriced(lines)
    case None => Line(ExceptionAdjustment, -amount, None, None, 0, 0, None, Some(e), None)
    case Some(l) => Line(ExceptionAdjustment, -amount, l.agreement, l.version, l.startDay, l.endDay, None, Some(e),
                         None)
  }

  /** `_append_adjustment`: the adjustment, then the compensating tax line per rule of the recorded set. */
  function Adjusted(engine: Engine, b: Books, amount: int, e: ExceptionId): seq<Line> {
    var lines := b.lines + [AdjustmentLine(b.lines, amount, e)];
    match b.taxSet
    case None => lines
    case Some(s) => lines + CompensatingLines(engine, lines, s, s.rules, e)
  }

  function RecordException(engine: Engine, b: Books, x: OwnerException): Posted {
    if x.kind.NeedsAnAmount() && x.amount <= 0 then Refused(AmountNotPositive)
    else if x.kind.LandsALine() && SubtotalMinor(b.lines) - x.amount < 0 then Refused(AdjustmentExceedsTotal)
    else
      var noted := b.(exceptions := b.exceptions + [x]);
      var landed :=
        if x.kind.LandsALine() then noted.(lines := Adjusted(engine, b, x.amount, |b.exceptions|)) else noted;
      Ok(Rederive(landed, x.recordedAt))
  }

  // ---------------------------------------------------------------- the charge: T1 and T2

  predicate HasRow(log: seq<Row>, key: Key, kind: Kind) {
    exists i :: 0 <= i < |log| && log[i].kind == kind && log[i].key == Some(key)
  }

  /** The oldest reservation with no outcome row: its position in the log. */
  function PendingFrom(log: seq<Row>, i: nat): (p: Option<nat>)
    requires i <= |log|
    ensures p.Some? ==>
              i <= p.value < |log| && IsReservation(log[p.value]) && !HasRow(log, log[p.value].key.value, OutcomeRow)
    ensures p.None? ==>
              forall j :: i <= j < |log| && IsReservation(log[j]) ==> HasRow(log, log[j].key.value, OutcomeRow)
    decreases |log| - i
  {
    if i == |log| then None
    else if IsReservation(log[i]) && !HasRow(log, log[i].key.value, OutcomeRow) then Some(i)
    else PendingFrom(log, i + 1)
  }

  function Pending(log: seq<Row>): (p: Option<nat>) {
    PendingFrom(log, 0)
  }

  /** The kind of an attempt's last row. */
  function LastKind(log: seq<Row>, key: Key): Option<Kind> {
    if log == [] then None
    else if log[|log| - 1].key == Some(key) then Some(log[|log| - 1].kind)
    else LastKind(log[..|log| - 1], key)
  }

  /** What an attempt reserved, if the log has its reservation. */
  function Reserved(log: seq<Row>, key: Key): Option<int> {
    if log == [] then None
    else if log[|log| - 1].kind.Attempt? && log[|log| - 1].key == Some(key) then Some(log[|log| - 1].amount)
    else Reserved(log[..|log| - 1], key)
  }

  /** The outcome recorded for an attempt, if any. */
  function Recorded(log: seq<Row>, key: Key): Option<Outcome> {
    if log == [] then None
    else if log[|log| - 1].kind.OutcomeRow? && log[|log| - 1].key == Some(key) then log[|log| - 1].outcome
    else Recorded(log[..|log| - 1], key)
  }

  /** The agreements an invoice's lines name. */
  function Named(lines: seq<Line>): set<AgreementId> {
    set i | 0 <= i < |lines| && lines[i].agreement.Some? :: lines[i].agreement.value
  }

  /** The three refusals, and the gate's own, before a fresh reservation. `mandates` says of each agreement
      the store holds whether its latest version has a mandate. */
  function RefuseUnlessChargeable(b: Books, mandates: map<AgreementId, bool>): Option<Refusal> {
    if forall a :: a in Named(b.lines) ==> a !in mandates then Some(InvoiceNamesNoAgreement)
    else if exists a :: a in Named(b.lines) && a in mandates && !mandates[a] then Some(NoMandate)
    else if |Counted(b.log)| >= MAX_ATTEMPTS then Some(RetriesExhausted)
    else if TotalMinor(b.lines) - PaidMinor(b) <= 0 then Some(NothingOwed)
    else None
  }

  /** What T1 hands to the processor. */
  datatype Reservation = Reservation(books: Books, key: Key, amount: int, resumed: bool)

  /** T1: refuse a request that may be in flight, ask again under the same key, or reserve the balance under
      a fresh one. */
  function Reserve(b: Books, newKey: Key, mandates: map<AgreementId, bool>): Result<Reservation, Refusal> {
    match Pending(b.log)
    case Some(p) =>
      var key := b.log[p].key.value;
      if LastKind(b.log, key) != Some(Unknown) then Refused(AttemptUnresolved)
      else Ok(Reservation(b.(log := b.log + [Row(Ask, Some(key), None, 0, Worker)]), key, b.log[p].amount, true))
    case None =>
      var refusal := RefuseUnlessChargeable(b, mandates);
      var balance := TotalMinor(b.lines) - PaidMinor(b);
      if refusal.Some? then Refused(refusal.value)
      else if HasRow(b.log, newKey, Attempt) then Refused(KeyTaken)
      else
        Ok(Reservation(b.(log := b.log + [Row(Attempt, Some(newKey), None, balance, Worker)]), newKey, balance, false))
  }

  /** T2 with an answer. The first outcome wins; a processor's answer that finds one is a late row, and a late
      success the recorded outcome denies still pays. */
  function Settle(b: Books, key: Key, result: Outcome, fromTheProcessor: bool, at: Instant): Posted {
    var reserved, recorded := Reserved(b.log, key), Recorded(b.log, key);
    if reserved.None? then Refused(AttemptNotFound)
    else if recorded.Some? && !fromTheProcessor then Refused(AlreadyResolved)
    else if recorded.Some? then
      var noted := b.(log := b.log + [Row(Late, Some(key), Some(result), 0, Worker)]);
      if result.Success? && !recorded.value.Success? then
        Ok(Rederive(InsertPayment(noted, Card, reserved.value, at, Some(key)), at))
      else Ok(noted)
    else
      var recorder := if fromTheProcessor then Worker else Operator;
      var noted := b.(log := b.log + [Row(OutcomeRow, Some(key), Some(result), 0, recorder)]);
      if result.Success? then Ok(Rederive(InsertPayment(noted, Card, reserved.value, at, Some(key)), at))
      else Ok(noted)
  }

  /** T2 without an answer: an unknown row, whatever has been recorded meanwhile. */
  function RecordUnknown(b: Books, key: Key): Books {
    b.(log := b.log + [Row(Unknown, Some(key), None, 0, Worker)])
  }

  function RecordMethodChanged(b: Books): Books {
    b.(log := b.log + [Row(MethodChanged, None, None, 0, Operator)])
  }

  // ---------------------------------------------------------------- events

  datatype Event =
    | Received(means: Method, amount: int, at: Instant)
    | Reversed(payment: nat, reason: Reason, at: Instant)
    | Excepted(exception: OwnerException)
    | Asked(newKey: Key, mandates: map<AgreementId, bool>)
    | Answered(key: Key, result: Outcome, at: Instant)
    | Unanswered(key: Key)
    | Resolved(key: Key, result: Outcome, at: Instant)
    | NewMethod

  function Post(engine: Engine, b: Books, e: Event): Posted {
    match e
    case Received(m, amount, at) => RecordPayment(b, m, amount, at)
    case Reversed(payment, reason, at) => RecordReversal(b, payment, reason, at)
    case Excepted(x) => RecordException(engine, b, x)
    case Asked(newKey, mandates) =>
      (match Reserve(b, newKey, mandates)
       case Ok(r) => Ok(r.books)
       case Refused(why) => Refused(why))
    case Answered(key, result, at) => Settle(b, key, result, true, at)
    case Unanswered(key) => Ok(RecordUnknown(b, key))
    case Resolved(key, result, at) => Settle(b, key, result, false, at)
    case NewMethod => Ok(RecordMethodChanged(b))
  }

  /** A refusal is rolled back: the books are as they were. */
  function After(engine: Engine, b: Books, e: Event): Books {
    match Post(engine, b, e)
    case Ok(b') => b'
    case Refused(_) => b
  }

  function Run(engine: Engine, b: Books, events: seq<Event>): Books {
    if events == [] then b else After(engine, Run(engine, b, events[..|events| - 1]), events[|events| - 1])
  }

  /** The instant an event derives `paid_at` with. */
  function EventAt(e: Event): Instant {
    match e
    case Received(_, _, at) => at
    case Reversed(_, _, at) => at
    case Excepted(x) => x.recordedAt
    case Answered(_, _, at) => at
    case Resolved(_, _, at) => at
    case _ => 0
  }

  // ---------------------------------------------------------------- what every event keeps

  /** Rows a book may hold: reversals of payments it has, and positive payments and reservations. */
  ghost predicate SoundRows(b: Books) {
    (forall i :: i in b.reversals ==> i < |b.payments|)
    && (forall i :: 0 <= i < |b.payments| ==> b.payments[i].amount > 0)
    && (forall i :: 0 <= i < |b.log| && IsReservation(b.log[i]) ==> b.log[i].amount > 0)
  }

  /** Paid is derived. */
  ghost predicate Derived(b: Books) {
    (b.paidAt.Some? <==> IsCovered(b)) && SoundRows(b)
  }

  /** What an event does to `paid_at`: nothing while the invoice stays covered, the event's own instant when it
      becomes so, and cleared when it ceases to be. `due_at` and the recorded set stay. */
  ghost predicate Follows(b: Books, after: Books, at: Instant) {
    Derived(after)
    && after.paidAt == (if !IsCovered(after) then None else if IsCovered(b) then b.paidAt else Some(at))
    && after.dueAt == b.dueAt && after.taxSet == b.taxSet
  }

  /** The tax follows the lines, and the non-tax total has not gone below zero. */
  ghost predicate TaxFollows(engine: Engine, b: Books) {
    SubtotalMinor(b.lines) >= 0
    && match b.taxSet
       case None => !IsTaxed(b.lines)
       case Some(s) => RulesApart(s) && TaxedByTheEngine(engine, b.lines, s)
  }

  /** Writing rows and then deriving, as every money event does. */
  lemma DerivingFollows(b: Books, written: Books, at: Instant)
    requires Derived(b) && SoundRows(written)
    requires written.paidAt == b.paidAt && written.dueAt == b.dueAt && written.taxSet == b.taxSet
    ensures Follows(b, Rederive(written, at), at)
  {}

  /** Writing to the charge log alone, which moves nothing the derivation reads. */
  lemma LoggingFollows(b: Books, log: seq<Row>, at: Instant)
    requires Derived(b) && SoundRows(b.(log := log))
    ensures Follows(b, b.(log := log), at)
  {}

  lemma {:induction false} ReservedIsPositive(log: seq<Row>, key: Key)
    requires forall i :: 0 <= i < |log| && IsReservation(log[i]) ==> log[i].amount > 0
    ensures Reserved(log, key).Some? ==> Reserved(log, key).value > 0
  {
    if log != [] {
      assert IsReservation(log[|log| - 1]) ==> log[|log| - 1].amount > 0;
      var front := log[..|log| - 1];
      assert forall i :: 0 <= i < |front| ==> front[i] == log[i];
      ReservedIsPositive(front, key);
    }
  }

  lemma SettlingFollows(b: Books, key: Key, result: Outcome, fromTheProcessor: bool, at: Instant)
    requires Derived(b) && Settle(b, key, result, fromTheProcessor, at).Ok?
    ensures Follows(b, Settle(b, key, result, fromTheProcessor, at).value, at)
  {
    ReservedIsPositive(b.log, key);
    var late := Recorded(b.log, key).Some?;
    var row := if late then Row(Late, Some(key), Some(result), 0, Worker)
               else Row(OutcomeRow, Some(key), Some(result), 0, if fromTheProcessor then Worker else Operator);
    var noted := b.(log := b.log + [row]);
    LoggingFollows(b, noted.log, at);
    DerivingFollows(b, InsertPayment(noted, Card, Reserved(b.log, key).value, at, Some(key)), at);
  }

  lemma RecordingFollows(engine: Engine, b: Books, x: OwnerException)
    requires Derived(b) && RecordException(engine, b, x).Ok?
    ensures Follows(b, RecordException(engine, b, x).value, x.recordedAt)
  {
    var noted := b.(exceptions := b.exceptions + [x]);
    DerivingFollows(b, noted, x.recordedAt);
    DerivingFollows(b, noted.(lines := Adjusted(engine, b, x.amount, |b.exceptions|)), x.recordedAt);
  }

  lemma AskingFollows(b: Books, newKey: Key, mandates: map<AgreementId, bool>, at: Instant)
    requires Derived(b) && Reserve(b, newKey, mandates).Ok?
    ensures Follows(b, Reserve(b, newKey, mandates).value.books, at)
  {}

  /** Every event, refused or not, leaves `paid_at` derived. */
  lemma EventsFollow(engine: Engine, b: Books, e: Event)
    requires Derived(b)
    ensures Follows(b, After(engine, b, e), EventAt(e))
  {
    if Post(engine, b, e).Ok? {
      match e {
        case Received(m, amount, at) => DerivingFollows(b, InsertPayment(b, m, amount, at, None), at);
        case Reversed(payment, reason, at) => DerivingFollows(b, b.(reversals := b.reversals[payment := at]), at);
        case Excepted(x) => RecordingFollows(engine, b, x);
        case Asked(newKey, mandates) => AskingFollows(b, newKey, mandates, EventAt(e));
        case Answered(key, result, at) => SettlingFollows(b, key, result, true, at);
        case Unanswered(key) => LoggingFollows(b, RecordUnknown(b, key).log, 0);
        case Resolved(key, result, at) => SettlingFollows(b, key, result, false, at);
        case NewMethod => LoggingFollows(b, RecordMethodChanged(b).log, 0);
      }
    }
  }

  /** The instant the invoice last became covered, from which books were covered and from nothing else. */
  function LastCovered(engine: Engine, issued: Books, events: seq<Event>): Option<Instant> {
    if events == [] then issued.paidAt
    else
      var front := events[..|events| - 1];
      if !IsCovered(Run(engine, issued, events)) then None
      else if IsCovered(Run(engine, issued, front)) then LastCovered(engine, issued, front)
      else Some(EventAt(events[|events| - 1]))
  }

  /** Over every run of payments, reversals, adjustments, settlements and late successes, `paid_at` is set iff
      the unreversed payments reach the total, it is the instant of the event that last made that true, each
      payment has at most one reversal, and `due_at` and the recorded tax set never move. */
  lemma {:induction false} PaidAtOverARun(engine: Engine, issued: Books, events: seq<Event>)
    requires Derived(issued)
    ensures var b := Run(engine, issued, events);
            Derived(b) && b.paidAt == LastCovered(engine, issued, events)
            && b.dueAt == issued.dueAt && b.taxSet == issued.taxSet
  {
    if events != [] {
      var front := events[..|events| - 1];
      PaidAtOverARun(engine, issued, front);
      EventsFollow(engine, Run(engine, issued, front), events[|events| - 1]);
    }
  }

  /** A waiver or a credit lowers the non-tax total by its amount and leaves the tax as the engine says. */
  lemma AdjustmentsRetax(engine: Engine, b: Books, x: OwnerException)
    requires TaxFollows(engine, b) && RecordException(engine, b, x).Ok? && (x.kind == WaiveFee || x.kind == Credit)
    ensures TaxFollows(engine, RecordException(engine, b, x).value)
    ensures SubtotalMinor(RecordException(engine, b, x).value.lines) == SubtotalMinor(b.lines) - x.amount
  {
    var adjustment := AdjustmentLine(b.lines, x.amount, |b.exceptions|);
    var lines := b.lines + [adjustment];
    SumsOverOne(adjustment, NonTax);
    SumsOverConcatenation(b.lines, [adjustment], NonTax);
    if b.taxSet.Some? {
      RetaxingRestoresTheTax(engine, lines, b.taxSet.value, |b.exceptions|);
    }
  }

  /** When an exception is refused: a money kind without a positive amount, or a waiver or credit of more than the
      non-tax total. A refund of more than that is not, and no other kind ever is. */
  lemma WhenAnExceptionIsRefused(engine: Engine, b: Books, x: OwnerException)
    ensures RecordException(engine, b, x) == Refused(AmountNotPositive)
            <==> (x.kind == WaiveFee || x.kind == Credit || x.kind == Refund) && x.amount <= 0
    ensures RecordException(engine, b, x) == Refused(AdjustmentExceedsTotal)
            <==> (x.kind == WaiveFee || x.kind == Credit) && x.amount > 0 && x.amount > SubtotalMinor(b.lines)
    ensures RecordException(engine, b, x).Ok?
            <==> match x.kind
                 case WaiveFee => 0 < x.amount <= SubtotalMinor(b.lines)
                 case Credit => 0 < x.amount <= SubtotalMinor(b.lines)
                 case Refund => 0 < x.amount
                 case _ => true
  {}

  /** A refund, a grace extension, a block or an unblock is noted and moves nothing: not a line, not a payment, and not
      whether or since when the invoice is paid. */
  lemma NotedAndNothingMore(engine: Engine, b: Books, x: OwnerException)
    requires x.kind in {Refund, ExtendGrace, Block, Unblock} && RecordException(engine, b, x).Ok?
    ensures var after := RecordException(engine, b, x).value;
            after.(paidAt := b.paidAt) == b.(exceptions := b.exceptions + [x])
            && (Derived(b) ==> after.paidAt == b.paidAt)
  {}

  /** A waiver or a credit appends one line of minus its amount, which names the exception and is put under the first
      priced line's agreement, and then only tax; what was there stays. */
  lemma AnAdjustmentIsOneLine(engine: Engine, b: Books, x: OwnerException)
    requires x.kind in {WaiveFee, Credit} && RecordException(engine, b, x).Ok?
    ensures var after, n := RecordException(engine, b, x).value, |b.lines|;
            b.lines <= after.lines && n < |after.lines|
            && after.lines[n].kind == ExceptionAdjustment && after.lines[n].amount == -x.amount
            && after.lines[n].exception == Some(|b.exceptions|) && after.lines[n].rule == None
            && (forall i :: n < i < |after.lines| ==> after.lines[i].kind == Tax)
            && |after.lines| == n + 1 + (if b.taxSet.Some? then |b.taxSet.value.rules| else 0)
            && after.exceptions == b.exceptions + [x] && after.payments == b.payments
            && after.reversals == b.reversals && after.log == b.log
    ensures var line := RecordException(engine, b, x).value.lines[|b.lines|];
            forall i :: IsFirstPriced(b.lines, i) ==>
                          line.agreement == b.lines[i].agreement && line.version == b.lines[i].version
                          && line.startDay == b.lines[i].startDay && line.endDay == b.lines[i].endDay
  {
    if b.taxSet.Some? {
      CompensatingLinesAreTax(engine, b.lines + [AdjustmentLine(b.lines, x.amount, |b.exceptions|)], b.taxSet.value,
                              b.taxSet.value.rules, |b.exceptions|);
    }
    FirstPricedIs(b.lines);
  }

  lemma {:induction false} CompensatingLinesAreTax(engine: Engine, lines: seq<Line>, s: TaxSet, rules: seq<RuleId>,
                                                   e: ExceptionId)
    ensures var tax := CompensatingLines(engine, lines, s, rules, e);
            |tax| == |rules| && forall i :: 0 <= i < |tax| ==> tax[i].kind == Tax
  {
    if rules != [] {
      CompensatingLinesAreTax(engine, lines, s, rules[..|rules| - 1], e);
    }
  }

  /** The first line that is not tax. */
  predicate IsFirstPriced(lines: seq<Line>, i: int) {
    0 <= i < |lines| && lines[i].kind != Tax && forall j :: 0 <= j < i ==> lines[j].kind == Tax
  }

  lemma {:induction false} FirstPricedIs(lines: seq<Line>)
    ensures FirstPriced(lines).None? <==> forall i :: 0 <= i < |lines| ==> lines[i].kind == Tax
    ensures forall i :: IsFirstPriced(lines, i) ==> FirstPriced(lines) == Some(lines[i])
  {
    if lines != [] {
      var front, last := lines[..|lines| - 1], |lines| - 1;
      FirstPricedIs(front);
      forall i | IsFirstPriced(lines, i) ensures FirstPriced(lines) == Some(lines[i]) {
        if i < last {
          assert IsFirstPriced(front, i);
        } else {
          assert forall j :: 0 <= j < |front| ==> front[j].kind == Tax;
        }
      }
      assert forall j :: 0 <= j < |front| ==> front[j] == lines[j];
    }
  }

  lemma EventsKeepTheTax(engine: Engine, b: Books, e: Event)
    requires TaxFollows(engine, b)
    ensures TaxFollows(engine, After(engine, b, e))
  {
    if e.Excepted? && RecordException(engine, b, e.exception).Ok? {
      if e.exception.kind == WaiveFee || e.exception.kind == Credit {
        AdjustmentsRetax(engine, b, e.exception);
      }
    }
  }

  lemma TaxFollowingTotal(engine: Engine, b: Books)
    requires EngineLaws(engine) && TaxFollows(engine, b)
    ensures TotalMinor(b.lines) >= SubtotalMinor(b.lines) >= 0
    ensures SubtotalMinor(b.lines) == 0 ==> TotalMinor(b.lines) == 0
  {
    match b.taxSet {
      case Some(s) => TotalFollowsTheBase(engine, b.lines, s);
      case None => UntaxedTotal(b.lines);
    }
  }

  lemma {:induction false} UntaxedTotal(lines: seq<Line>)
    requires !IsTaxed(lines)
    ensures TotalMinor(lines) == SubtotalMinor(lines)
  {
    TotalIsSubtotalAndTax(lines, []);
  }

  /** After any run -- adjustments among whatever else -- each recorded rule's tax lines come to the engine's
      tax on the current non-tax total, and neither total is negative. */
  lemma {:induction false} TaxOverARun(engine: Engine, issued: Books, events: seq<Event>)
    requires EngineLaws(engine) && TaxFollows(engine, issued)
    ensures var b := Run(engine, issued, events);
            TaxFollows(engine, b) && TotalMinor(b.lines) >= SubtotalMinor(b.lines) >= 0
  {
    if events == [] {
      TaxFollowingTotal(engine, issued);
    } else {
      TaxOverARun(engine, issued, events[..|events| - 1]);
      EventsKeepTheTax(engine, Run(engine, issued, events[..|events| - 1]), events[|events| - 1]);
      TaxFollowingTotal(engine, Run(engine, issued, events));
    }
  }

  /** Waiving everything that is left leaves a total of exactly zero, and a paid invoice. One unit more is refused. */
  lemma WaivingEverything(engine: Engine, b: Books, at: Instant)
    requires EngineLaws(engine) && TaxFollows(engine, b) && Derived(b) && SubtotalMinor(b.lines) > 0
    ensures var waived := RecordException(engine, b, OwnerException(WaiveFee, SubtotalMinor(b.lines), at));
            waived.Ok? && TotalMinor(waived.value.lines) == 0 && waived.value.paidAt.Some?
    ensures RecordException(engine, b, OwnerException(WaiveFee, SubtotalMinor(b.lines) + 1, at))
            == Refused(AdjustmentExceedsTotal)
  {
    var x := OwnerException(WaiveFee, SubtotalMinor(b.lines), at);
    AdjustmentsRetax(engine, b, x);
    TaxFollowingTotal(engine, RecordException(engine, b, x).value);
    EventsFollow(engine, b, Excepted(x));
    PaymentsAreNotNegative(b.payments, b.reversals);
  }

  lemma {:induction false} PaymentsAreNotNegative(payments: seq<Payment>, reversals: map<nat, Instant>)
    requires forall i :: 0 <= i < |payments| ==> payments[i].amount > 0
    ensures UnreversedSum(payments, reversals) >= 0
  {
    if payments != [] {
      PaymentsAreNotNegative(payments[..|payments| - 1], reversals);
    }
  }

  /** An invoice just issued satisfies both invariants; one that owes nothing is paid from its issue instant. */
  lemma IssuedBooks(engine: Engine, priced: seq<Line>, chosen: Option<TaxSet>, dueAt: Instant, now: Instant)
    requires EngineLaws(engine) && SubtotalMinor(priced) >= 0 && (chosen.Some? ==> RulesApart(chosen.value))
    requires Issue(engine, priced, chosen, dueAt, now).Ok?
    ensures var b := Issue(engine, priced, chosen, dueAt, now).value;
            Derived(b) && TaxFollows(engine, b) && priced <= b.lines && b.dueAt == dueAt
            && b.log == [] && b.payments == [] && b.reversals == map[] && b.exceptions == [] && b.taxSet == chosen
            && (SubtotalMinor(priced) == 0 ==> b.paidAt == Some(now))
            && (SubtotalMinor(priced) > 0 ==> b.paidAt == None)
  {
    IssueIsTaxedByTheEngine(engine, priced, chosen.value);
    TaxFollowingTotal(engine, Issue(engine, priced, chosen, dueAt, now).value);
  }

  /** A payment is never a card's and never nothing; it counts for exactly its amount, and what is paid beyond
      the total shows as overpaid. */
  lemma PaymentCounts(b: Books, m: Method, amount: int, at: Instant)
    ensures RecordPayment(b, m, amount, at).Ok? <==> m in {Cheque, Ach} && amount > 0
    ensures RecordPayment(b, m, amount, at) == Refused(CardEntersThroughTheCharge) <==> m == Card
    ensures RecordPayment(b, m, amount, at) == Refused(AmountNotPositive) <==> m != Card && amount <= 0
    ensures RecordPayment(b, m, amount, at).Ok? ==>
              RecordPayment(b, m, amount, at).value.payments == b.payments + [Payment(m, amount, at, None)]
    ensures RecordPayment(b, m, amount, at).Ok? && SoundRows(b) ==>
              var b' := RecordPayment(b, m, amount, at).value;
              PaidMinor(b') == PaidMinor(b) + amount && b'.lines == b.lines && b'.log == b.log
              && (var excess := PaidMinor(b) + amount - TotalMinor(b.lines);
                  OverpaidMinor(b') == if excess > 0 then excess else 0)
  {
    var p := Payment(m, amount, at, None);
    assert (b.payments + [p])[..|b.payments|] == b.payments;
  }

  /** When a reversal is refused: there is no such payment; the reason is not one that its kind of payment has, a bounce
      for a cheque, a return for a bank transfer, a chargeback or the processor's own for a card; or it is reversed. */
  lemma WhenAReversalIsRefused(b: Books, payment: nat, reason: Reason, at: Instant)
    ensures RecordReversal(b, payment, reason, at) == Refused(PaymentNotFound) <==> payment >= |b.payments|
    ensures payment < |b.payments| ==>
              var means := b.payments[payment].means;
              var fits := (means == Cheque && reason == BouncedCheque) || (means == Ach && reason == AchReturned)
                          || (means == Card && (reason == Chargeback || reason == ProcessorReversed));
              (RecordReversal(b, payment, reason, at) == Refused(ReasonMismatch) <==> !fits)
              && (RecordReversal(b, payment, reason, at) == Refused(AlreadyReversed)
                  <==> fits && payment in b.reversals)
              && (RecordReversal(b, payment, reason, at).Ok? <==> fits && payment !in b.reversals)
  {}

  /** A reversal reopens the invoice: nothing is paid, and what is owed runs from the original `due_at`. */
  lemma ReversalReopens(b: Books, payment: nat, reason: Reason, at: Instant)
    requires Derived(b) && RecordReversal(b, payment, reason, at).Ok?
    ensures var b' := RecordReversal(b, payment, reason, at).value;
            b'.reversals == b.reversals[payment := at] && b'.payments == b.payments && b'.lines == b.lines
            && PaidMinor(b') == PaidMinor(b) - b.payments[payment].amount
            && (b'.paidAt.None? <==> PaidMinor(b) - b.payments[payment].amount < TotalMinor(b.lines))
            && b'.dueAt == b.dueAt
            && forall again, when :: RecordReversal(b', payment, again, when).Refused?
  {
    ReversingOne(b.payments, b.reversals, payment, at);
  }

  lemma {:induction false} ReversingOne(payments: seq<Payment>, reversals: map<nat, Instant>, payment: nat, at: Instant)
    requires payment !in reversals
    ensures UnreversedSum(payments, reversals[payment := at])
            == UnreversedSum(payments, reversals) - (if payment < |payments| then payments[payment].amount else 0)
  {
    if payments != [] {
      ReversingOne(payments[..|payments| - 1], reversals, payment, at);
    }
  }
}
