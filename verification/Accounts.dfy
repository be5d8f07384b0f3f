/** One invoice's account as the store keeps it, updated in place: the bodies of `payments.py`,
    `exceptions_store.py` and `charging.py` that run under the invoice lock.

    Each method is proved to do to the whole account what its `Ledger` function says, and a refusal to leave
    every field as it was; what is proved of those functions over runs is thereby proved of these methods. */
module Accounts {
  import opened Garages
  import opened Agreements
  import opened Lines
  import opened Taxes
  import opened ChargeLog
  import Ledger
  import opened Options

  /** What the processor was asked, or is to be asked again. */
  datatype Request = Request(key: Key, amount: int, resumed: bool)

  class Account {
    var lines: seq<Line>
    var payments: seq<Ledger.Payment>
    var reversals: map<nat, Instant>
    var exceptions: seq<Ledger.OwnerException>
    var log: seq<Row>
    const taxSet: Option<TaxSet>
    const dueAt: Instant
    var paidAt: Option<Instant>

    function View(): Ledger.Books
      reads this
    {
      Ledger.Books(lines, payments, reversals, exceptions, log, taxSet, dueAt, paidAt)
    }

    /** The account of an invoice just issued. */
    constructor (issued: Ledger.Books)
      ensures View() == issued
    {
      lines, payments, reversals, exceptions := issued.lines, issued.payments, issued.reversals, issued.exceptions;
      log, taxSet, dueAt, paidAt := issued.log, issued.taxSet, issued.dueAt, issued.paidAt;
    }

    /** `rederive_paid_at`: an update only on a transition. */
    method RederivePaidAt(at: Instant)
      modifies this`paidAt
      ensures View() == Ledger.Rederive(old(View()), at)
    {
      var covered := Ledger.PaidMinor(View()) >= TotalMinor(lines);
      if covered && paidAt.None? {
        paidAt := Some(at);
      } else if !covered && paidAt.Some? {
        paidAt := None;
      }
    }

    method InsertPayment(means: Ledger.Method, amount: int, at: Instant, attempt: Option<Key>)
      modifies this`payments
      ensures View() == Ledger.InsertPayment(old(View()), means, amount, at, attempt)
    {
      payments := payments + [Ledger.Payment(means, amount, at, attempt)];
    }

    method RecordPayment(means: Ledger.Method, amount: int, at: Instant) returns (refusal: Option<Ledger.Refusal>)
      modifies this`payments, this`paidAt
      ensures Ledger.RecordPayment(old(View()), means, amount, at)
              == if refusal.Some? then Refused(refusal.value) else Ok(View())
      ensures refusal.Some? ==> View() == old(View())
      ensures old(Ledger.Derived(View())) ==> Ledger.Derived(View())
    {
      if means.Card? {
        return Some(Ledger.CardEntersThroughTheCharge);
      }
      if amount <= 0 {
        return Some(Ledger.AmountNotPositive);
      }
      InsertPayment(means, amount, at, None);
      RederivePaidAt(at);
      refusal := None;
    }

    method RecordReversal(payment: nat, reason: Ledger.Reason, at: Instant) returns (refusal: Option<Ledger.Refusal>)
      modifies this`reversals, this`paidAt
      ensures Ledger.RecordReversal(old(View()), payment, reason, at)
              == if refusal.Some? then Refused(refusal.value) else Ok(View())
      ensures refusal.Some? ==> View() == old(View())
      ensures old(Ledger.Derived(View())) ==> Ledger.Derived(View())
    {
      if payment >= |payments| {
        return Some(Ledger.PaymentNotFound);
      }
      if !Ledger.ReasonFits(payments[payment].means, reason) {
        return Some(Ledger.ReasonMismatch);
      }
      if payment in reversals {
        return Some(Ledger.AlreadyReversed);
      }
      reversals := reversals[payment := at];
      RederivePaidAt(at);
      refusal := None;
    }

    /** `_append_adjustment`: the adjustment first, then the tax on what the lines have become. */
    method AppendAdjustment(engine: Engine, amount: int, exception: ExceptionId)
      modifies this`lines
      ensures lines == Ledger.Adjusted(engine, old(View()), amount, exception)
    {
      lines := lines + [Ledger.AdjustmentLine(lines, amount, exception)];
      if taxSet.Some? {
        var compensating := RetaxAfterAdjustment(engine, lines, taxSet.value, exception);
        lines := lines + compensating;
      }
    }

    method RecordInvoiceException(engine: Engine, x: Ledger.OwnerException) returns (refusal: Option<Ledger.Refusal>)
      modifies this`lines, this`exceptions, this`paidAt
      ensures Ledger.RecordException(engine, old(View()), x)
              == if refusal.Some? then Refused(refusal.value) else Ok(View())
      ensures refusal.Some? ==> View() == old(View())
      ensures old(Ledger.Derived(View())) ==> Ledger.Derived(View())
      ensures refusal.None? ==> exceptions == old(exceptions) + [x]
      ensures refusal.None? && x.kind !in {Ledger.WaiveFee, Ledger.Credit} ==> lines == old(lines)
      ensures refusal.None? && x.kind in {Ledger.WaiveFee, Ledger.Credit} ==>
                old(lines) <= lines && |old(lines)| < |lines| && lines[|old(lines)|].amount == -x.amount
                && forall i :: |old(lines)| < i < |lines| ==> lines[i].kind.Tax?
    {
      if Ledger.RecordException(engine, View(), x).Ok? && x.kind in {Ledger.WaiveFee, Ledger.Credit} {
        Ledger.AnAdjustmentIsOneLine(engine, View(), x);
      }
      if x.kind.NeedsAnAmount() && x.amount <= 0 {
        return Some(Ledger.AmountNotPositive);
      }
      if x.kind.LandsALine() && SubtotalMinor(lines) - x.amount < 0 {
        return Some(Ledger.AdjustmentExceedsTotal);
      }
      var id := |exceptions|;
      if x.kind.LandsALine() {
        AppendAdjustment(engine, x.amount, id);
      }
      exceptions := exceptions + [x];
      RederivePaidAt(x.recordedAt);
      refusal := None;
    }

    method LogRow(row: Row)
      modifies this`log
      ensures log == old(log) + [row]
    {
      log := log + [row];
    }

    /** T1. The retry state is folded from the log as it stands under the lock. */
    method Reserve(newKey: Key, mandates: map<AgreementId, bool>) returns (r: Result<Request, Ledger.Refusal>)
      modifies this`log
      ensures match Ledger.Reserve(old(View()), newKey, mandates)
              case Refused(why) => r == Refused(why) && View() == old(View())
              case Ok(reservation) => r == Ok(Request(reservation.key, reservation.amount, reservation.resumed))
                                      && View() == reservation.books
      ensures old(Ledger.Derived(View())) ==> Ledger.Derived(View())
    {
      var retry := RetryStateFromRows(log);
      var pending := Ledger.Pending(log);
      if pending.Some? {
        var attempt := log[pending.value];
        if Ledger.LastKind(log, attempt.key.value) != Some(Unknown) {
          return Refused(Ledger.AttemptUnresolved);
        }
        LogRow(Row(Ask, attempt.key, None, 0, Worker));
        return Ok(Request(attempt.key.value, attempt.amount, true));
      }
      var named := Ledger.Named(lines);
      var balance := TotalMinor(lines) - Ledger.PaidMinor(View());
      if forall a :: a in named ==> a !in mandates {
        return Refused(Ledger.InvoiceNamesNoAgreement);
      }
      if exists a :: a in named && a in mandates && !mandates[a] {
        return Refused(Ledger.NoMandate);
      }
      if retry.Exhausted() {
        return Refused(Ledger.RetriesExhausted);
      }
      if balance <= 0 {
        return Refused(Ledger.NothingOwed);
      }
      if Ledger.HasRow(log, newKey, Attempt) {
        return Refused(Ledger.KeyTaken);
      }
      LogRow(Row(Attempt, Some(newKey), None, balance, Worker));
      r := Ok(Request(newKey, balance, false));
    }

    /** T2 with an answer, the processor's or the operator's. */
    method Settle(key: Key, result: Outcome, fromTheProcessor: bool, at: Instant)
      returns (refusal: Option<Ledger.Refusal>, retry: RetryState)
      modifies this`log, this`payments, this`paidAt
      ensures Ledger.Settle(old(View()), key, result, fromTheProcessor, at)
              == if refusal.Some? then Refused(refusal.value) else Ok(View())
      ensures retry == RetryState(|Counted(log)|, LastOutcome(log))
      ensures refusal.Some? ==> View() == old(View())
      ensures old(Ledger.Derived(View())) ==> Ledger.Derived(View())
    {
      hide Ledger.Derived;
      ghost var before := View();
      SettlingDerives(before, key, result, fromTheProcessor, at);
      retry := RetryStateFromRows(log);
      var reserved, recorded := Ledger.Reserved(log, key), Ledger.Recorded(log, key);
      if reserved.None? {
        return Some(Ledger.AttemptNotFound), retry;
      }
      if recorded.Some? && !fromTheProcessor {
        return Some(Ledger.AlreadyResolved), retry;
      }
      refusal := None;
      if recorded.Some? {
        LogRow(Row(Late, Some(key), Some(result), 0, Worker));
        if result.Success? && !recorded.value.Success? {
          InsertPayment(Ledger.Card, reserved.value, at, Some(key));
          RederivePaidAt(at);
        }
      } else {
        LogRow(Row(OutcomeRow, Some(key), Some(result), 0, if fromTheProcessor then Worker else Operator));
        if result.Success? {
          InsertPayment(Ledger.Card, reserved.value, at, Some(key));
          RederivePaidAt(at);
        }
      }
      retry := RetryStateFromRows(log);
    }

    static lemma SettlingDerives(b: Ledger.Books, key: Key, result: Outcome, fromTheProcessor: bool, at: Instant)
      ensures Ledger.Derived(b) && Ledger.Settle(b, key, result, fromTheProcessor, at).Ok? ==>
                Ledger.Derived(Ledger.Settle(b, key, result, fromTheProcessor, at).value)
    {
      hide Ledger.Settle;
      if Ledger.Derived(b) && Ledger.Settle(b, key, result, fromTheProcessor, at).Ok? {
        Ledger.SettlingFollows(b, key, result, fromTheProcessor, at);
      }
    }

    /** The row, and the retry state rebuilt from the rows: an answer that did not arrive counts for nothing. */
    method RecordUnknown(key: Key) returns (retry: RetryState)
      modifies this`log
      ensures View() == Ledger.RecordUnknown(old(View()), key)
      ensures retry == RetryState(|Counted(log)|, LastOutcome(log))
      ensures |Counted(log)| == old(|Counted(log)|) && LastOutcome(log) == old(LastOutcome(log))
      ensures old(Ledger.Derived(View())) ==> Ledger.Derived(View())
    {
      OneMoreRow(log, Row(Unknown, Some(key), None, 0, Worker));
      LogRow(Row(Unknown, Some(key), None, 0, Worker));
      retry := RetryStateFromRows(log);
    }

    /** The row, after which nothing recorded counts any more. */
    method RecordPaymentMethodChanged() returns (retry: RetryState)
      modifies this`log
      ensures View() == Ledger.RecordMethodChanged(old(View()))
      ensures retry == RetryState(0, None) && |Counted(log)| == 0
      ensures old(Ledger.Derived(View())) ==> Ledger.Derived(View())
    {
      OneMoreRow(log, Row(MethodChanged, None, None, 0, Operator));
      LogRow(Row(MethodChanged, None, None, 0, Operator));
      retry := RetryStateFromRows(log);
    }

    /** `attempt_charge` with nothing in between: T1, the processor's answer if one arrives, T2. */
    method AttemptCharge(engine: Engine, newKey: Key, mandates: map<AgreementId, bool>, answer: Option<Outcome>,
                         at: Instant)
      returns (r: Result<Request, Ledger.Refusal>, retry: RetryState)
      modifies this`log, this`payments, this`paidAt
      ensures r.Refused? <==> Ledger.Reserve(old(View()), newKey, mandates).Refused?
      ensures r.Refused? ==> View() == old(View())
      ensures r.Ok? ==>
                View() == Ledger.Run(engine, old(View()),
                            [Ledger.Asked(newKey, mandates)]
                            + [if answer.Some? then Ledger.Answered(r.value.key, answer.value, at)
                               else Ledger.Unanswered(r.value.key)])
      ensures r.Ok? ==> retry == RetryState(|Counted(log)|, LastOutcome(log))
      ensures old(Ledger.Derived(View())) ==> Ledger.Derived(View())
    {
      hide Ledger.RecordException, Ledger.RecordPayment, Ledger.RecordReversal, Ledger.Reserve, Ledger.Settle,
           Ledger.Derived;
      retry := RetryState(0, None);
      r := Reserve(newKey, mandates);
      if r.Ok? {
        ghost var asked, reserved := [Ledger.Asked(newKey, mandates)], View();
        assert [] + asked == asked && asked[..0] == [];
        assert Ledger.Run(engine, old(View()), asked) == reserved;
        if answer.None? {
          retry := RecordUnknown(r.value.key);
          assert (asked + [Ledger.Unanswered(r.value.key)])[..1] == asked;
        } else {
          var refusal;
          refusal, retry := Settle(r.value.key, answer.value, true, at);
          assert (asked + [Ledger.Answered(r.value.key, answer.value, at)])[..1] == asked;
        }
      }
    }
  }
}
