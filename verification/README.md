# A verified model of the monthly-billing engine and its store

This project models the behaviour of a billing engine for monthly parking agreements and of the Postgres store beside
it, and proves what the two promise together. It is written in Dafny; `dafny verify dfyconfig.toml` checks all of it.

Four parts share one state:

- **The charge and the ledger.** A charge is T1 (reserve or ask again, committed under the invoice lock), a call to the
  card processor outside any lock, and T2 (outcome, unknown or late, under the lock again). In between, workers crash,
  an operator resolves attempts, cheques arrive and bounce, and the owner adjusts the invoice. `Ledger` says what one
  transaction does to an invoice's books; `Sessions` splits a transaction into lock, read, write, derive and commit and
  shows the lock makes it one; `Charging` and `Processor` interleave workers, operator and processor over those
  transactions, and `Conservation` follows the money through them; `Accounts` is the same books as an object updated
  in place. `ChargeLog` is the recorded log and its retry fold, `Taxes` the tax lines around an engine that is only a
  function.
- **The vehicle register.** `Register` is the index from a garage and an identity, in that garage's form, to the
  agreement that holds it, kept in step with versioned agreements by four calls; `RegisterCalls` says what each takes,
  refuses and leaves; `Releases` is about the door's release; `RegisterStore` has the calls with their loops. `Races`
  splits each call into the plan it reads and the write it makes later, with other calls in between, and `RaceCases`
  runs the two ways in which that loses something. `Pauses` is the interval subtraction a save is judged by.
- **The calendar and pricing.** `Calendar` (the Gregorian rules of section 5.7 and Appendix C of RFC 3339, over
  unbounded years), `Garages`, `Cycle`, `Agreements`, `Proration`, `Lines`, `Invoicing` and `BillingRuns`, whose runs
  are concurrent and may die at any step; `PricedShares` says what their lines come to and `BilledLines` what is on the
  invoices they leave, and `FeeCases` and `StartDayCases` have the inputs at which a one-time fee or a month is not
  billed once.
- **The coverage answer.** `Coverage` asks it of documents and of the store, `CoverageAgrees` proves these two and a
  reader of the published garage register agree, `CoverageAnswers` gives the answer in full, `CoverageOverRuns` has it
  over whatever calls and runs came before, and `CoverageCases` is a run after which the two calls differ.

Every transaction is a function from one state to the next, refusals included, so that runs can be folded over and
reasoned about; where the source updates state or loops, a method with that loop or those updates is proved to do
exactly what the function says. Days are ordinals, instants and ids are integers, money is integer minor units.

Things the proofs turned up, kept as the code has them:

- A non-success typed by the operator on an attempt whose money has moved loses that money even when no ask is out:
  `Conservation.ADenialThatDisagrees` runs it, and `Processor.MovedButUnpaid` says exactly when it happens.
- The late branch of T2 does not look for an earlier late row (`Conservation.TheLateBranchAlone`); that there never is
  one is `Charging.EveryReachableStateIsSafe`.
- A cancelled agreement's list goes on naming a plate that another agreement has taken over. The pure coverage call
  over all documents then differs from the store's answer (`CoverageCases.ATakenOverPlate` runs it from an empty
  store), and exactly then (`CoverageAgrees.PureCallAgrees`).
- A one-time fee can go unbilled or be billed twice, as first charge and runs each price the version that is current
  for them. `Invoicing.OneTimeFeeCount` is the count whatever the versions, `Invoicing.OneTimeFeesAreBilledOnce` the
  condition for once where they date the fee alike. `FeeCases` has an input for each failure: a fee added after the
  first charge had billed its period, a fee dated in a period without a billable day, and a fee moved from the first
  charge's periods to a run's.
- A version may move the start day to another period, and a save accepts it. Then months are billed to nobody or twice:
  `StartDayCases` has an input for each, `Invoicing.PricedByTheVersionOfTheDay` is what is billed in any case, and
  `Invoicing.OwnersAgreeIff` is when nothing is lost.
- A billing run that dies between its commit and its report leaves an invoice no run ever reported
  (`BillingRuns.ACommitLeftUnreported`), and there is no other way (`BillingRuns.EveryNewInvoiceIsReported`).
- A row is taken over by its id and never looked at again. Two agreements that plan at once to take the same cancelled
  agreement's row both succeed, and the first is left active without it (`RaceCases.ARowTakenTwice`); a door
  registration that planned before a save dropped a garage writes there after it (`RaceCases.ADoorBehindADrop`). The
  table's UNIQUE sees neither. `Races.WhenAWriteKeeps` says exactly when a write loses something.
- Where the comments and the code differ, the code is followed: `prorate` says it truncates toward zero and floors
  (the same on the amounts an agreement accepts); a month-end garage's period is as long as the month it ends in, not
  the month it starts in (`Cycle.ProrationDivisor`).

## Model

| member | source | states |
|---|---|---|
| ChargeLog.RetryStateFromRows | src/monthly_billing/charging.py:224-262 | the fold over the log gives the number of non-success outcomes that count against the current method, and the last outcome that applies |
| ChargeLog.FoldCountsByReservation | src/monthly_billing/charging.py:232-243 | where outcomes follow their attempts, what counts is exactly the non-success outcomes reserved after the last method change, whatever rows stand between |
| ChargeLog.OneMoreRow | src/monthly_billing/charging.py:244-262 | what each kind of row adds to the count, the keys reserved since the change and the last outcome |
| ChargeLog.LastOutcomeByReservation | src/monthly_billing/charging.py:244-262 | the last outcome the fold gives is that of the last outcome row whose reservation lies after the last method change |
| Charging.EveryReachableStateIsSafe | src/monthly_billing/charging.py:399-645 | over every interleaving with crashes, each key has at most one card payment, for what it reserved, iff an outcome or late row says SUCCESS; at most one attempt is open and one worker per key; rows in order; at most 3 failures |
| Charging.RowsAreInOrder | src/monthly_billing/charging.py:411-431 | each key's rows are attempt, (unknown ask) any number of times, then at most an unknown, an outcome, and one late or unknown |
| Charging.RetriesInEveryReachableState | src/monthly_billing/payment.py:172-193 | in every reachable state the retry count is the number of failures reserved on the current method, and at most 3 |
| Charging.ReservingIs | src/monthly_billing/charging.py:399-477 | a fresh reservation is the exact positive balance with nothing open; a re-ask is for what was reserved, under the same key |
| Charging.WhenAChargeStarts | src/monthly_billing/payment.py:322-345 | T1 goes through iff the open attempt's last word is unknown, or nothing is open, some line names an agreement the store holds and every one of those has a mandate, fewer than 3 failures count, something is owed and the key is new |
| Charging.WhyAChargeIsRefused | src/monthly_billing/payment.py:322-345 | which refusal T1 gives: an attempt in flight, and otherwise the first of no agreement, no mandate, three failures, nothing owed, a used key |
| Charging.TheUnansweredIsAskedAgain | src/monthly_billing/charging.py:399-477 | an attempt in flight refuses every charge, and an unknown row lets it be asked again under its own key for what it reserved |
| Charging.ACrashWaitsForTheOperator | src/monthly_billing/charging.py:704-737 | after a crash nobody is at the attempt, no worker can charge, and the operator can settle it |
| Charging.PendingIsOpen | src/monthly_billing/charging.py:278-313 | the pending read finds the open attempt and its reserved amount, and finds none only if none is open |
| Charging.SettlingIs | src/monthly_billing/charging.py:505-645 | T2 writes one row, late exactly when an outcome stands, and pays exactly when it is the attempt's first to say SUCCESS |
| Charging.AnswersAreRecorded | src/monthly_billing/charging.py:545-560 | a worker at the processor is never refused when it comes back with an answer |
| Charging.ChargingKeepsPaidAt | src/monthly_billing/charging.py:653-701 | any run of the protocol is a run of ledger transactions, so `paid_at` is derived and dated by the event that last made it so |
| Processor.MovedButUnpaid | src/monthly_billing/charging.py:602-645 | with a truthful processor, money moved has no card payment iff its attempt is open or the operator denied it with no answer recorded since |
| Processor.FreshReservationsAreExact | src/monthly_billing/charging.py:434-477 | if the operator agrees with the processor, a fresh reservation is the exact balance and every older key that moved money is paid |
| Conservation.MoneyIsConserved | src/monthly_billing/charging.py:505-600 | in every run with a truthful processor, whatever the operator types: money moved and card payments recorded differ by what the operator affirmed without it moving, and by what moved and is open or denied with no answer since |
| Conservation.AgreedMoneyIsConserved | src/monthly_billing/charging.py:505-600 | if the operator agrees with the processor, all money moved equals all card payments recorded, plus what an open attempt has moved |
| Conservation.NeverMoreThanTheTotal | src/monthly_billing/charging.py:448-477 | in every run with a truthful processor, adjustments and reversals included, what has moved is at most the highest total the invoice has had, plus the card payments reversed, plus what moved under keys the operator denied |
| Conservation.AgreedNeverMoreThanTheTotal | src/monthly_billing/charging.py:448-477 | if the operator agrees with the processor, what has moved is at most the highest total plus the card payments reversed |
| Conservation.ADenialThatDisagrees | src/monthly_billing/charging.py:704-737 | a run in which a typed denial of moved money leads to a second charge of the whole balance |
| Conservation.TheLateBranchAlone | src/monthly_billing/charging.py:602-645 | two late successes under one key would pay twice; nothing in the branch prevents it |
| Ledger.PaidAtOverARun | src/monthly_billing/payments.py:157-200 | over every run, `paid_at` is set iff unreversed payments reach the total, at the instant of the event that last made it so; `due_at` never moves |
| Ledger.EventsFollow | src/monthly_billing/payments.py:183-200 | each event sets, keeps or clears `paid_at` by the transition it makes, refused events change nothing |
| Ledger.PaymentCounts | src/monthly_billing/payments.py:216-275 | a payment is refused iff by card or not positive, else it is recorded as given and counts for its amount; overpayment is the excess |
| Ledger.ReversalReopens | src/monthly_billing/payments.py:318-389 | a reversal takes back exactly its payment, clears `paid_at` iff no longer covered, keeps `due_at`, and can happen once |
| Ledger.WhenAReversalIsRefused | src/monthly_billing/payments.py:318-389 | no such payment, a reason its kind of payment does not have, or reversed already, in that order |
| Ledger.TaxOverARun | src/monthly_billing/exceptions_store.py:91-231 | after any run each recorded rule's tax lines sum to the engine's tax on the current non-tax total, and no total is negative |
| Ledger.AdjustmentsRetax | src/monthly_billing/exceptions_store.py:160-231 | a waiver or a credit lowers the non-tax total by its amount and leaves the tax as the engine says |
| Ledger.WhenAnExceptionIsRefused | src/monthly_billing/exceptions_store.py:91-145 | kind by kind: a waiver, credit or refund without a positive amount, and a waiver or credit of more than the non-tax total; a larger refund and every other kind go through |
| Ledger.NotedAndNothingMore | src/monthly_billing/exceptions_by_owner.py:67-75 | a refund, extension, block or unblock appends the decision and moves no line, payment or reversal, nor whether or since when the invoice is paid |
| Ledger.AnAdjustmentIsOneLine | src/monthly_billing/exceptions_store.py:160-231 | a waiver or credit appends one line of minus its amount, naming its exception, under the first priced line's agreement, and then one tax line per recorded rule |
| Ledger.WaivingEverything | src/monthly_billing/exceptions_store.py:113-121 | waiving all of the non-tax total leaves a total of zero and a paid invoice; one unit more is refused |
| Ledger.IssuedBooks | src/monthly_billing/billing_run.py:376-433 | an issued invoice is taxed, keeps its priced lines and the set it was taxed with, has nothing else on it, and is paid at issue iff it owes nothing |
| Sessions.InterleavingIsSerial | src/monthly_billing/store/postgres.py:84-125 | any interleaving of lock, read, write, derive, commit and raise commits what the events would do one after another |
| Sessions.PaidAtAtEveryCommit | src/monthly_billing/store/postgres.py:100-125 | at every commit `paid_at` is right and dated by the last event that made it so; raising changes nothing and frees the lock |
| Sessions.ASessionAlone | src/monthly_billing/store/postgres.py:84-125 | whenever the lock is free, a session's five steps commit exactly its event, or nothing where it is refused, and let go |
| Sessions.TheLockIsNeeded | src/monthly_billing/payments.py:183-200 | without the lock a payment and a credit at once leave a covered invoice unpaid |
| Accounts.Account.RederivePaidAt | src/monthly_billing/payments.py:183-200 | in place: `paid_at` is written only on a transition, nothing else moves |
| Accounts.Account.RecordPayment | src/monthly_billing/payments.py:216-252 | in place: the whole new account, or a refusal that leaves every field; `paid_at` stays derived |
| Accounts.Account.RecordReversal | src/monthly_billing/payments.py:318-389 | in place: the whole new account, or a refusal that leaves every field; `paid_at` stays derived |
| Accounts.Account.RecordInvoiceException | src/monthly_billing/exceptions_store.py:91-145 | in place: exception, adjustment, compensating tax and derivation, or a refusal that leaves every field; a waiver or credit lands one line of minus its amount and then tax, any other kind no line |
| Accounts.Account.AppendAdjustment | src/monthly_billing/exceptions_store.py:160-231 | in place: the adjustment line, then one compensating line per recorded rule |
| Accounts.Account.Reserve | src/monthly_billing/charging.py:399-477 | in place T1: the request handed to the processor and the row written, or the refusal by name |
| Accounts.Account.Settle | src/monthly_billing/charging.py:505-645 | in place T2: outcome or late row, its payment and the retry state read back, or the refusal by name; `paid_at` stays derived |
| Accounts.Account.RecordUnknown | src/monthly_billing/charging.py:480-502 | in place: one unknown row and nothing else, and the retry state read back |
| Accounts.Account.RecordPaymentMethodChanged | src/monthly_billing/charging.py:762-818 | in place: one row, after which the retry count is zero and no outcome applies |
| Accounts.Account.AttemptCharge | src/monthly_billing/charging.py:653-701 | T1 then T2 on one account is the run of those two transactions, or nothing at all if T1 refuses |
| Taxes.RetaxAfterAdjustment | src/monthly_billing/tax.py:224-292 | the loop gives one line per recorded rule, moving what is carried to what is owed |
| Taxes.IssueIsTaxedByTheEngine | src/monthly_billing/tax.py:180-221 | taxing appends only, leaves the non-tax total, and gives each rule the engine answered one line, of the engine's figure, and no other rule any |
| Taxes.TaxIsRefused | src/monthly_billing/tax.py:180-221 | refused iff a line is tax already, or no set is in force |
| Taxes.SpanIs | src/monthly_billing/tax.py:170-177 | the days of a tax line: from the first start to the last end of the priced lines |
| Taxes.TaxLinesCarry | src/monthly_billing/tax.py:224-292 | a tax line names no agreement, has the span, and is the engine's figure at issue or names the exception it compensates for |
| Taxes.RetaxingRestoresTheTax | src/monthly_billing/tax.py:224-292 | whatever the lines carried, one compensating line per rule brings every rule to the engine's figure |
| Taxes.TotalFollowsTheBase | src/monthly_billing/tax.py:147-167 | a taxed total is never below the non-tax total and is zero when that is zero |
| Lines.SumsOverConcatenation | src/monthly_billing/invoice.py:119-128 | totals, subtotals and per-rule sums add over lines |
| Lines.TotalsAreOfTheLines | src/monthly_billing/invoice.py:119-128 | the total is of every line, the subtotal of every line but tax, a rule's tax of its own tax lines |
| Calendar.MonthStartInClosedForm | src/monthly_billing/localday.py:98-104 | the ordinal of a month's first day in figures: 365 a year, a leap day per 4 years less per 100 plus per 400, the twelve cumulative day counts, and the leap day after February |
| Calendar.MonthLengths | src/monthly_billing/localday.py:98-104 | the twelve month lengths, and February's 29 by the Gregorian rule |
| Calendar.OrdinalInClosedForm | src/monthly_billing/localday.py:128-135 | which days are dates, and the ordinal of each, in the same figures |
| Calendar.OrdinalRoundTrip | src/monthly_billing/localday.py:128-135 | the date reached by counting days has that ordinal |
| Calendar.DateRoundTrip | src/monthly_billing/localday.py:128-135 | every date is recovered from its ordinal |
| Calendar.OrdinalOrder | src/monthly_billing/localday.py:128-135 | dates compare as their ordinals do |
| Calendar.ClampedMonthsCompose | src/monthly_billing/localday.py:107-125 | clamped month moves compose and go the number of months asked, so month-end never sticks at a short month |
| Calendar.UnclampedMonthsReturn | src/monthly_billing/localday.py:107-125 | a month move goes the number of months asked, and there and back returns iff the day exists in the month passed through |
| Garages.NextBillingDayIsFirst | src/monthly_billing/garage.py:163-187 | the next billing day is on or after the day, and none lies between, for all three options |
| Garages.BillingDaysAscend | src/monthly_billing/garage.py:163-175 | billing days ascend month by month |
| Garages.NormaliseIsIdempotent | src/monthly_billing/garage.py:191-216 | normalising what was stored changes nothing, under either rule |
| Garages.FoldDropsSeparators | src/monthly_billing/garage.py:204-207 | the fold does not see a character that is neither letter nor digit |
| Garages.FoldIsCharacterwise | src/monthly_billing/garage.py:204-207 | texts that fold alike character by character fold alike |
| Garages.FoldOfOne | src/monthly_billing/garage.py:204-207 | what each character comes to: digits stay, letters in lower case, o and i as digits, nothing else |
| Garages.NormaliseIs | src/monthly_billing/garage.py:191-216 | when an identity comes to nothing under each rule, and what it comes to otherwise |
| Garages.MatchesAre | src/monthly_billing/garage.py:191-219 | two identities match iff both come to one text, and cannot be compared iff one comes to nothing |
| Garages.ReaderConfusionsMatch | src/monthly_billing/garage.py:191-219 | O and 0, I and 1 match under the folding rule and not under the exact one |
| Cycle.PeriodsPartitionTime | src/monthly_billing/cycle.py:69-111 | a day's period contains it, is the period of exactly its own days, lasts 28 to 31 days, and the next starts where it ends |
| Cycle.PeriodOfADay | src/monthly_billing/cycle.py:69-93 | the walk over billing days gives the indexed period that contains the day |
| Cycle.IndexIsUnique | src/monthly_billing/cycle.py:69-93 | no two periods contain one day |
| Cycle.ProrationDivisor | src/monthly_billing/cycle.py:102-107 | how many days each option's period has, month by month, in figures |
| Agreements.PausesAcceptedIffDisjoint | src/monthly_billing/agreement.py:386-396 | the constructor's one walk over sorted pauses refuses exactly the lists in which two overlap |
| Agreements.WhatTheConstructorTakes | src/monthly_billing/agreement.py:268-405 | every refusal of the constructor, in the document's own fields |
| Proration.BillableDays | src/monthly_billing/cycle.py:119-146 | the day-by-day loop counts the set of live, unpaused days |
| Proration.BillableDaysInClosedForm | src/monthly_billing/cycle.py:119-146 | the count is the live window less each pause's overlap with it |
| Proration.BillableDaysWithinThePeriod | src/monthly_billing/cycle.py:155-178 | the count is never outside the period, so `prorate` never raises on it |
| Proration.WhenProrateRefuses | src/monthly_billing/cycle.py:155-178 | refused iff the period has no days or not that many; otherwise the share rounded down |
| Proration.ShareRoundsDown | src/monthly_billing/cycle.py:155-178 | a share is never above the exact one and less than one minor unit below |
| Proration.ShareIsMonotone | src/monthly_billing/cycle.py:155-178 | more days never cost less, and a whole period costs the whole price |
| Proration.SplittingNeverOverbills | src/monthly_billing/cycle.py:155-178 | splitting a period into parts never bills more than the whole and loses less than a unit a part |
| Invoicing.FeeLines | src/monthly_billing/invoice.py:142-198 | every branch of the fee loops bills a recurring fee's share from the later of its start and the period's, and one-time fees in their period |
| Invoicing.FirstCharge | src/monthly_billing/invoice.py:201-261 | the two periods of the first charge, each with its own price and fee lines, the first for its share of the price; refused iff billed elsewhere |
| PricedShares.TheFirstChargeBillsTheShares | src/monthly_billing/invoice.py:201-261 | a partial and a full line, each for the price's share of the days of its own period that the agreement is live, rounded down, each followed by its fees |
| PricedShares.MonthlyAmountIs | src/monthly_billing/cycle.py:119-178 | a monthly amount is the price's share of the days started, not cancelled and not paused: all of it only where every day is live |
| PricedShares.ARunBillsTheShare | src/monthly_billing/invoice.py:287-315 | no line without a live day; otherwise one monthly line, full or partial as every day is live or not, for its share, and then fees |
| PricedShares.AFeeBillsItsShare | src/monthly_billing/invoice.py:142-198 | each fee has one line or none: a recurring fee for its share of the live days from its own start, a one-time fee in its period for its amount |
| Invoicing.InvoiceForPeriod | src/monthly_billing/invoice.py:273-319 | the payer's agreements in order of id, none without a billable day; refused iff one is billed elsewhere |
| PricedShares.AnInvoiceBillsEachShare | src/monthly_billing/invoice.py:273-319 | whatever else the payer has, each of its agreements is billed its own share of the period on the invoice, and its fees |
| Invoicing.SortingOrders | src/monthly_billing/invoice.py:273-300 | the order is by id and keeps every agreement |
| Invoicing.FirstChargeOwnsTwo | src/monthly_billing/billing_run.py:188-198 | the first charge owns exactly the period of the start day and the next |
| Invoicing.EveryPeriodIsPricedOnce | src/monthly_billing/billing_run.py:188-198 | over any versions that keep the start day in its period, and any stretch of periods, first charge and runs together bill each period's prorated price exactly once: the stretch's, and the first charge's two where they lie outside it |
| Invoicing.PricedByTheVersionOfTheDay | src/monthly_billing/billing_run.py:188-242 | over any versions and any start days, what is billed is the first charge's two periods as its own version dates them, and each run's period unless its own version takes that for the first charge's |
| Invoicing.OwnersAgreeIff | src/monthly_billing/billing_run.py:188-198 | first charge and runs divide the periods between them, none twice and none left, iff both versions start in one period |
| StartDayCases.AStartDayMovedOn | src/monthly_billing/billing_run.py:229-242 | after a start day moved on by a version that a save accepts, two live months are never billed |
| StartDayCases.AStartDayMovedBack | src/monthly_billing/billing_run.py:229-242 | after a start day moved back, two months are billed twice |
| Invoicing.OneTimeFeesAreBilledOnce | src/monthly_billing/invoice.py:185-198 | over any versions that keep the start day in its period and date a one-time fee alike, it is billed at most once, and once iff the version that is to bill its period holds it, with a billable day there where that is a run |
| Invoicing.OneTimeFeeCount | src/monthly_billing/billing_run.py:229-242 | how often a one-time fee is billed whatever versions are stored: once if the first charge's version dates it in its two periods, and once by each run whose own version dates it in the period run with a billable day |
| FeeCases.AFeeAddedTooLate | src/monthly_billing/billing_run.py:229-242 | a fee added after the first charge, dated in a period that has billable days and was the first charge's, is never billed |
| FeeCases.AFeeMoved | src/monthly_billing/billing_run.py:229-242 | a fee moved by a later version from the first charge's periods to a run's is billed twice |
| FeeCases.AFeeInADeadPeriod | src/monthly_billing/invoice.py:273-319 | a fee dated in a period without a billable day, outside the first charge's two, is never billed |
| BillingRuns.ConcurrentRunsAreSound | src/monthly_billing/billing_run.py:201-364 | over concurrent runs that may die at any step, between commit and report included: one line per payer; each new invoice was issued by one run at one payer, which says ISSUED of it there and nowhere else or has yet to; ALREADY_ISSUED only if the invoice exists; issued lines kept |
| BillingRuns.EveryNewInvoiceIsReported | src/monthly_billing/billing_run.py:296-364 | ISSUED is said of a new invoice iff no run is left holding a commit of it that it has not reported |
| BillingRuns.ACommitLeftUnreported | src/monthly_billing/billing_run.py:296-364 | an invoice committed by a run that died before its report stays unreported for good |
| BillingRuns.IssuedLinesNeverChange | src/monthly_billing/billing_run.py:279-299 | no later run, price or tax set changes an issued invoice's lines, reference or due instant |
| BillingRuns.AReRunNeverIssues | src/monthly_billing/billing_run.py:319-349 | a payer invoiced before its turn is never issued again, reported or not |
| BillingRuns.EveryInvoiceIsDerived | src/monthly_billing/billing_run.py:432 | every invoice's `paid_at` is derived from issue on |
| BillingRuns.InvoicesFallDueAsTheirPeriodStarts | src/monthly_billing/billing_run.py:265-299 | every invoice is due as its period starts at its garage, and stays so |
| BilledLines.TheRunPricesWhatItOwns | src/monthly_billing/billing_run.py:236-242 | whatever documents a payer has, what a run prices under each of its agreements is nothing of a period the first charge owns and the agreement's lines otherwise |
| BilledLines.WhenThereIsNoPrice | src/monthly_billing/billing_run.py:230-246 | no price iff the documents do not load or an agreement of the payer's that the run is to price is billed elsewhere |
| BilledLines.EveryInvoiceIsItsDocumentsPrice | src/monthly_billing/billing_run.py:229-299 | in every world the runs can reach, an invoice they issued is the taxed price of its payer's documents at the garage's own period |
| BilledLines.IssuedInvoicesBillTheRunsShare | src/monthly_billing/billing_run.py:229-299 | an issued invoice bills each of its payer's agreements the run's share exactly, and every line but tax is of one whose first charge does not own the period |
| BillingRuns.ATurnAlone | src/monthly_billing/billing_run.py:229-364 | where nothing comes between a turn's steps, they come to one line and the one invoice it may add, checks and guards that refuse a statement included |
| BillingRuns.WhatATurnSays | src/monthly_billing/billing_run.py:229-364 | each outcome of a turn iff what: nothing billable, issued, issued already, a constraint, refused |
| BillingRuns.ARunBegins | src/monthly_billing/billing_run.py:201-229 | a run is for the garage's period that holds its day, with nothing reported |
| BillingRuns.Invoices.Price | src/monthly_billing/billing_run.py:230-246 | the payer's price, refused where documents fail to load or price |
| BillingRuns.Invoices.BillPayer | src/monthly_billing/billing_run.py:229-364 | one payer's outcome, case by case, a check or a guard on the invoice or on a line among them, and the one invoice it may add |
| BillingRuns.Invoices.RunBilling | src/monthly_billing/billing_run.py:201-364 | the loop over payers, each with its own tax set and obstacle: a line each, an invoice is new iff its line says ISSUED, nothing already there changes, and a payer invoiced already is told so, but for a check that comes first |
| Pauses.CutAll | src/monthly_billing/store/records.py:503-517 | one earlier pause taken out of everything left so far |
| Pauses.DaysNotIn | src/monthly_billing/store/records.py:503-517 | exactly the pause's days no earlier pause covers, as non-empty ranges that do not overlap |
| Pauses.OverlapsPaid | src/monthly_billing/cycle.py:181-208 | a range is refused iff one of its days is in a paid period |
| Pauses.RefuseNewPauseDays | src/monthly_billing/store/records.py:463-500 | a save is refused for this iff some newly paused day is in a paid period |
| Register.RegisterOverARun | src/monthly_billing/store/records.py:178-428 | over any run of garages added, saves and door calls: rows only at covered garages and in their form, on the holder's list and all of it while active; versions go up; home, registrar, payer and garages stay |
| Register.EveryReachableStoreIsKept | src/monthly_billing/store/records.py:178-428 | the same of every store that calls can reach from an empty one |
| Races.RacesSurvive | src/monthly_billing/store/records.py:264-428 | however plans and writes interleave from a kept store: versions go up with home, registrar and payer fixed, every row is in its garage's form at a garage some version of its holder covered, and a self-registered agreement has no row off its latest list |
| Races.WhenAWriteKeeps | src/monthly_billing/store/records.py:619-689 | a write keeps the whole invariant iff every row it was to take over is still there or its own, none of those it takes is on an active list, and the door's agreement still covers where it writes |
| Races.TimelyRunsAreSerial | src/monthly_billing/store/records.py:543-675 | where no write is late, interleaved calls leave the store that they leave one at a time, in the order of their writes |
| Races.PlannedAndWrittenAtOnce | src/monthly_billing/store/records.py:596-675 | a plan whose write follows it at once is the call, refusals included |
| Races.WhatAPlanRemembers | src/monthly_billing/store/records.py:713-746 | a plan remembers exactly the rows others hold among its places, by id |
| Races.WhatAWriteLeaves | src/monthly_billing/store/records.py:619-675 | a write has the places it remembered no row of and those whose remembered row is still there, leaves the rest, and is refused iff a place it remembered none of is now another's |
| RaceCases.ARowTakenTwice | src/monthly_billing/store/records.py:638-647 | from an empty store, two saves at once take one cancelled agreement's row, and the first is left active without its plate |
| RaceCases.ADoorBehindADrop | src/monthly_billing/store/records.py:805-839 | from an empty store, a door registration writes at a garage that a save has dropped since it planned |
| Register.RowsPassOnlyFromTheCancelled | src/monthly_billing/store/records.py:713-764 | no call touches another agreement's row but a save or door registration, to take it from one whose newest version is cancelled as of a day that has come on the garage's clock |
| Register.PaidDaysAreNotNewlyPaused | src/monthly_billing/store/records.py:463-500 | over any run, a day in a period that is paid at each save is not newly paused |
| Register.PlanPasses | src/monthly_billing/store/records.py:596-616 | the plan refuses nothing iff every text has a form and every place is free to take, at every garage |
| RegisterCalls.ThePlanRefusesTheFirst | src/monthly_billing/store/records.py:596-616 | the first garage in order with trouble decides, and there a text that comes to nothing before one that another holds |
| RegisterCalls.WhenAGarageIsAdded | src/monthly_billing/garage.py:110-160 | a garage is added iff its grace is not negative, its nth day is 1 to 28 and its id is new |
| RegisterCalls.HomeFirstIs | src/monthly_billing/store/records.py:520-540 | the covered set is walked with the home first and then in its own order |
| RegisterCalls.WhenASaveGoesThrough | src/monthly_billing/store/records.py:203-428 | a version is saved iff the constructor takes it, home, registrar, payer and version fit every version stored, no paid day is newly paused, its garages are known, and its list is free and formed everywhere |
| RegisterCalls.WhyASaveIsRefused | src/monthly_billing/store/records.py:253-345 | which refusal a save gives, the first that is so in the source's order |
| RegisterCalls.WhatASaveLeaves | src/monthly_billing/store/records.py:543-593 | the agreement has exactly its list's places, or, registered from outside, what it had at garages still covered; every other row as it was |
| RegisterCalls.WhenTheDoorRegisters | src/monthly_billing/store/records.py:805-839 | a text is registered iff the agreement is stored, is registered from outside and nothing stands against the text at any garage covered; else the refusal |
| RegisterCalls.WhatTheDoorRegisters | src/monthly_billing/store/records.py:805-839 | the text's place at every covered garage and every other row as it was |
| RegisterCalls.OnlyTheDueGiveWay | src/monthly_billing/store/records.py:713-764 | where one row stands against a text, it is given up iff its holder is cancelled and the day has come there, and refused by name otherwise |
| RegisterCalls.WhyAReleaseIsRefused | src/monthly_billing/store/records.py:842-928 | which refusal a release gives, in the source's order, and that it goes through otherwise |
| RegisterStore.Records.PlanRegistrations | src/monthly_billing/store/records.py:596-616 | the read-only walk: the first refusal in garage order, or every garage's share |
| RegisterStore.Records.HeldElsewhere | src/monthly_billing/store/records.py:713-746 | refused iff another agreement holds a form that is active or cancelled as of a day still to come there; else exactly the rows to take over |
| RegisterStore.Records.WriteRegistrations | src/monthly_billing/store/records.py:619-675 | every listed form becomes the agreement's, and an insert never meets a taken place |
| RegisterStore.Records.RegisterVehicles | src/monthly_billing/store/records.py:543-593 | rows end exactly in step with the list, everybody else's untouched; a refusal writes nothing |
| RegisterStore.Records.StoreAgreement | src/monthly_billing/store/records.py:203-428 | the whole new store, or the first refusal in order with the store as it was; the invariant kept |
| RegisterStore.Records.StoreGarage | src/monthly_billing/store/records.py:178-192 | one garage more under its own id, or a refusal with the store as it was; the invariant kept |
| RegisterStore.Records.RegisterFromOutside | src/monthly_billing/store/records.py:805-839 | one text at every covered garage, all or none, nothing released |
| RegisterStore.Records.RefuseAnAmbiguousRelease | src/monthly_billing/store/records.py:931-992 | the nested walk finds an ambiguity iff there is one |
| RegisterStore.Records.ReleaseFromOutside | src/monthly_billing/store/records.py:842-928 | every refusal in order before any delete, then exactly the text's own rows, reported as deleted |
| Releases.ReleaseTakesItsOwn | src/monthly_billing/store/records.py:842-928 | a release takes exactly the text's own row at each garage it reaches and leaves every other |
| Releases.ReleaseKeepsTheFoldsOfOthers | src/monthly_billing/store/records.py:931-992 | an unnamed release keeps a row that is the fold of one still held at another garage |
| Releases.OneGarageIsNeverAmbiguous | src/monthly_billing/store/records.py:950-954 | an agreement at one garage is never refused as ambiguous |
| Releases.AmbiguityNeedsTwoRules | src/monthly_billing/store/records.py:937-951 | over canonical rows ambiguity needs a folding garage and an exact one |
| Releases.RegisterThenRelease | src/monthly_billing/store/records.py:805-928 | registering a new text and releasing it restores the register, unless a row held elsewhere folds to it, and then it is refused |
| Coverage.LatestPerIdentity | src/monthly_billing/entitlement.py:333-341 | the dictionary loop keeps the highest version of each identity, whatever the order |
| Coverage.StaysWithinTheHours | src/monthly_billing/entitlement.py:297-303 | which stays the hours cover, on dated times, for day hours and for hours past midnight |
| Coverage.ExitCoveredMeansEntryCovered | src/monthly_billing/entitlement.py:249-276 | a stay covered on leaving was covered on arriving, for the spots and with its exit unchecked iff it has hours, and leaving earlier never loses coverage |
| CoverageAnswers.TheJudgementIs | src/monthly_billing/entitlement.py:149-294 | the answer about one agreement in full: which reason, the first that is so, and where none is, covered for its spots |
| CoverageAnswers.OnArrivalByDocument | src/monthly_billing/entitlement.py:249-276 | asked on arrival, one in good standing is covered iff it has no hours or the garage's clock is at or past the hour of entry |
| CoverageAnswers.OnArrivalByTheStore | src/monthly_billing/entitlement_store.py:62-149 | the same of the store's answer, for the row's holder |
| CoverageAnswers.TheStandingIs | src/monthly_billing/entitlement_store.py:86-173 | what the store reads of an agreement: the earliest due instant its payer owes at its home, that garage's grace as extended, the last block or unblock |
| CoverageAnswers.TheRegisterAsked | src/monthly_billing/entitlement.py:160-240 | of one document, whether the garage is covered, whether its register must be given and is, and what the walk over it decides |
| CoverageAnswers.TheWalkStops | src/monthly_billing/entitlement.py:205-247 | the walk stops at the first text that comes to nothing or is the vehicle |
| Coverage.EarliestUnpaidIsFirst | src/monthly_billing/entitlement_store.py:165-173 | the instant read is an unpaid invoice's and none is earlier |
| Coverage.BlockedByTheLastWord | src/monthly_billing/exceptions_by_owner.py:181-195 | blocked iff the owner's latest decision by its own instant is a block |
| Coverage.ExtensionsAdd | src/monthly_billing/exceptions_by_owner.py:167-178 | an extension of n days adds n, anything else nothing, wherever the decisions are cut |
| Coverage.DecisionsForAreThose | src/monthly_billing/entitlement_store.py:176-249 | exactly the decisions on the agreement and on the payer's invoices at the home that the read admits, each as often and in the order it is stored |
| CoverageAgrees.StoreCallNeverRefuses | src/monthly_billing/entitlement_store.py:62-149 | in every reachable store the call never finds two agreements, missing registrations or a missing home |
| CoverageAgrees.StoreCallJudgesTheHolder | src/monthly_billing/entitlement_store.py:86-149 | the answer is the judgement of the row's holder at its home, and no agreement where there is no row |
| CoverageAgrees.PureCallAgrees | src/monthly_billing/entitlement.py:149-294 | the pure call over every document gives the store's answer iff no cancelled list still names a plate it no longer has |
| CoverageCases.ATakenOverPlate | src/monthly_billing/entitlement.py:149-294 | from an empty store, a run that ends with the store answering covered and the call over every document refusing with two agreements |
| CoverageAgrees.OnlyCancelledListsAreStale | src/monthly_billing/store/records.py:749-764 | only a cancelled agreement's list can name a plate it does not hold |
| CoverageAgrees.PublishedRegisterAgrees | src/monthly_billing/store/records.py:1394-1530 | a reader of the published register gives the store's answer and reason, but for access hours |
| CoverageOverRuns.PublishedRegisterAfterRuns | src/monthly_billing/store/records.py:1394-1530 | the same with nothing supposed of register or invoices: after any calls on an empty register and any billing runs, payments and adjustments on an empty billing store |
| CoverageOverRuns.BillsSayWhatIsCovered | src/monthly_billing/entitlement_store.py:165-173 | in every such world an invoice reads as paid exactly while its payments reach its total |
| CoverageAgrees.EarliestFallsOnItsDay | src/monthly_billing/store/records.py:1473-1487 | the earliest due instant falls on the earliest unpaid period's first day |
| CoverageAnswers.ThePublishedRegisterIs | src/monthly_billing/store/records.py:1394-1487 | what is published: the garage's rows, and of the agreements they name the newest version's own days |

## Left out

- SQL, the driver, row policies, grants, migrations and tenants: one tenant, tables as maps and sequences, and a unique constraint as a map's key or an explicit refusal.
- The instrument guard, the engine's own errors and the driver's: any of them is a `Raise`, a `Die` or a refused write, and none is given a reason.
- The real processor, tax engine and zone data: a decision per key, a function with three laws (rules of the set only, nothing negative, nothing on nothing), and two maps with the laws of `ZoneLaws`. A zone that skips a whole local day breaks those laws and is not covered.
- Sentences, labels, JSON, the command line, contract generation, document loading, currency and money types: codes and integers only. Python's range of years is not modelled.
- Garages.NormaliseIsIdempotent: `lower` and `isalnum` are over ASCII letters and digits.
- Garages.FoldDropsSeparators: over ASCII, as above.
- Garages.FoldIsCharacterwise: over ASCII, as above.
- Accounts.Account.AttemptCharge: nothing comes between its T1 and its T2, as in one call on an invoice nobody else is at; what may come between them is `Charging`'s.
- The `sorted` order of door answers and published lists: sets and maps have no order, and the model's door answers in covered order.
- `first_charge_due_at`: at which instant the first charge is taxed.
- `charge_invoice`, the charge without a store: it holds no reservation, and its three refusals are the ones modelled.
- `show_register` and the agreements it finds at garages no longer covered: a read with no decision in it.
- `record_agreement_exception`: its row is read by coverage and changes no invoice.
- Register.RegisterOverARun: its calls are atomic. `Races` has a call's reads as one step and its writes as another; that each of these is several statements, with row locks between them and deadlocks the database breaks, is not modelled. A plan there sees one committed store.
- Which of several priced lines of one instant an adjustment is put under: the source breaks the tie by row id, the model takes the first.
- The order of two decisions with one instant: as stored, for every reader alike.
- Provenance the store does not keep: which attempt a card payment settles, and whether a row was a worker's or the operator's, are fields of the model so that they can be spoken of; so are the garage, documents and tax set an invoice was priced from.
- CoverageAgrees.PublishedRegisterAgrees: for a register kept and invoices due at the first instant of their period, both of which `CoverageOverRuns.PublishedRegisterAfterRuns` has of what the calls and runs leave.
