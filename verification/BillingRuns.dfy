/** The billing run of `billing_run.py`: any number of runs at once, interleaved at every transaction of every payer,
    and one run on its own as the loop it is. */
module BillingRuns {
  import opened Calendar
  import opened Garages
  import opened Agreements
  import opened Cycle
  import opened Lines
  import opened Invoicing
  import opened Taxes
  import Ledger
  import Sessions
  import opened Options

  type RunId = int

  /** What the period lock is on. */
  datatype PeriodKey = PeriodKey(garage: GarageId, payer: PayerId, start: Day)

  datatype RunOutcome = Issued | AlreadyIssued | NothingBillable | RunRefused | ConstraintViolated

  datatype RunLine = RunLine(payer: PayerId, outcome: RunOutcome)

  /** What an invoice was priced from. */
  datatype Pricing = Pricing(garage: Garage, period: Period, documents: seq<Agreement>, chosen: Option<TaxSet>)

  /** An invoice in the store: the lines it was issued with, its books since, and what it was priced from. */
  datatype Row = Row(reference: string, issued: seq<Line>, books: Ledger.Books, pricing: Pricing)

  /** What may stop a payer's write besides tax and the two locks: the guard or a CHECK, on the invoice's own row and
      so before the locks are tried, or on a line or at commit and so after. */
  datatype Obstacle = Clear | GuardOnTheInvoice | CheckOnTheInvoice | GuardOnALine | CheckOnALineOrAtCommit

  /** `Committed`: the invoice is in the store and its line is still to be reported. `Stopped`: the write was rolled
      back and the period lock's own fact is still to be read. */
  datatype Phase =
    | Between
    | Priced(documents: seq<Agreement>, lines: seq<Line>)
    | Committed
    | Stopped(byAUnique: bool, namesThePeriod: bool)

  datatype BillingRun = BillingRun(garage: Garage, period: Period, payers: seq<PayerId>, phase: Phase,
                                   report: seq<RunLine>, live: bool) {
    function KeyAt(i: nat): PeriodKey
      requires i < |payers|
    {
      PeriodKey(garage.id, payers[i], period.startDay)
    }
  }

  datatype World = World(invoices: map<PeriodKey, Row>, runs: map<RunId, BillingRun>)

  datatype Step =
    | Begin(run: RunId, garage: Garage, day: Day, payers: seq<PayerId>)
    | PriceNext(run: RunId, documents: Option<seq<Agreement>>)
    | WriteInvoice(run: RunId, chosen: Option<TaxSet>, obstacle: Obstacle, namesThePeriod: bool, now: Instant)
    | ReportIssued(run: RunId)
    | ReadBack(run: RunId)
    | Die(run: RunId)
    | Money(key: PeriodKey, event: Ledger.Event)

  // ---------------------------------------------------------------- one payer

  function NotOwned(g: Garage, items: seq<Agreement>, p: Period): seq<Agreement>
    requires WellFormed(g)
  {
    if items == [] then []
    else
      var last := items[|items| - 1];
      NotOwned(g, items[..|items| - 1], p) + (if OwnedByFirstCharge(g, last, p) then [] else [last])
  }

  /** What the payer's documents price to: nothing at all where they fail to load or to price. */
  function PriceOf(g: Garage, p: Period, payer: PayerId, documents: Option<seq<Agreement>>): Option<seq<Line>>
    requires WellFormed(g)
  {
    if documents.None? || !AllHomedHere(NotOwned(g, documents.value, p), g.id, payer) then None
    else Some(PayersLines(SortedById(NotOwned(g, documents.value, p)), p, payer))
  }

  predicate ReferenceTaken(invoices: map<PeriodKey, Row>, reference: string) {
    exists k :: k in invoices && invoices[k].reference == reference
  }

  function Reported(r: BillingRun, outcome: RunOutcome): BillingRun
    requires |r.report| < |r.payers|
  {
    r.(report := r.report + [RunLine(r.payers[|r.report|], outcome)], phase := Between)
  }

  // ---------------------------------------------------------------- steps

  predicate Ready(w: World, run: RunId) {
    run in w.runs && w.runs[run].live && |w.runs[run].report| < |w.runs[run].payers| && WellFormed(w.runs[run].garage)
  }

  function With(w: World, run: RunId, r: BillingRun): World {
    w.(runs := w.runs[run := r])
  }

  /** The payer's write transaction: tax at the due instant, then the rows, under both locks, and the commit.
      `reference` spells a key out, and nothing is assumed of two keys' spellings. */
  function Written(engine: Engine, reference: PeriodKey -> string, w: World, run: RunId, chosen: Option<TaxSet>,
                   obstacle: Obstacle, namesThePeriod: bool, now: Instant): World
    requires Ready(w, run) && w.runs[run].phase.Priced?
  {
    var r := w.runs[run];
    var key := r.KeyAt(|r.report|);
    match Ledger.Issue(engine, r.phase.lines, chosen, r.garage.zone.dayStart(r.period.startDay), now)
    case Refused(_) => With(w, run, r.(phase := Stopped(false, false)))
    case Ok(books) =>
      if obstacle.GuardOnTheInvoice? then With(w, run, r.(phase := Stopped(false, false)))
      else if obstacle.CheckOnTheInvoice? then With(w, run, Reported(r, ConstraintViolated))
      else if key in w.invoices || ReferenceTaken(w.invoices, reference(key)) then
        With(w, run, r.(phase := Stopped(true, namesThePeriod && key in w.invoices)))
      else if obstacle.GuardOnALine? then With(w, run, r.(phase := Stopped(false, false)))
      else if obstacle.CheckOnALineOrAtCommit? then With(w, run, Reported(r, ConstraintViolated))
      else
        var row := Row(reference(key), books.lines, books, Pricing(r.garage, r.period, r.phase.documents, chosen));
        With(w, run, r.(phase := Committed)).(invoices := w.invoices[key := row])
  }

  function Do(engine: Engine, reference: PeriodKey -> string, w: World, step: Step): World {
    match step
    case Begin(run, garage, day, payers) =>
      if run in w.runs || !WellFormed(garage) || !NoRepeats(payers) then w
      else With(w, run, BillingRun(garage, PeriodContaining(garage, day), payers, Between, [], true))
    case PriceNext(run, documents) =>
      if !Ready(w, run) || !w.runs[run].phase.Between? then w
      else
        var r := w.runs[run];
        (match PriceOf(r.garage, r.period, r.payers[|r.report|], documents)
         case None => With(w, run, Reported(r, RunRefused))
         case Some(lines) =>
           With(w, run,
                if lines == [] then Reported(r, NothingBillable) else r.(phase := Priced(documents.value, lines))))
    case WriteInvoice(run, chosen, obstacle, namesThePeriod, now) =>
      if !Ready(w, run) || !w.runs[run].phase.Priced? then w
      else Written(engine, reference, w, run, chosen, obstacle, namesThePeriod, now)
    case ReportIssued(run) =>
      if !Ready(w, run) || !w.runs[run].phase.Committed? then w
      else With(w, run, Reported(w.runs[run], Issued))
    case ReadBack(run) =>
      if !Ready(w, run) || !w.runs[run].phase.Stopped? then w
      else
        var r := w.runs[run];
        var issued := r.KeyAt(|r.report|) in w.invoices;
        With(w, run, Reported(r, if issued || r.phase.namesThePeriod then AlreadyIssued
                                 else if r.phase.byAUnique then ConstraintViolated else RunRefused))
    case Die(run) => if run in w.runs then With(w, run, w.runs[run].(live := false)) else w
    case Money(key, event) =>
      if key !in w.invoices then w
      else w.(invoices := w.invoices[key := w.invoices[key].(books := Ledger.After(engine, w.invoices[key].books,
                                                                                   event))])
  }

  function Reach(engine: Engine, reference: PeriodKey -> string, start: World, steps: seq<Step>): World {
    if steps == [] then start
    else Do(engine, reference, Reach(engine, reference, start, steps[..|steps| - 1]), steps[|steps| - 1])
  }

  // ---------------------------------------------------------------- the invariant

  predicate Says(w: World, run: RunId, i: nat, outcome: RunOutcome, key: PeriodKey) {
    run in w.runs && i < |w.runs[run].report| && i < |w.runs[run].payers|
    && w.runs[run].report[i].outcome == outcome && w.runs[run].KeyAt(i) == key
  }

  /** One line per payer, in the payers' order. */
  predicate OneLineEach(r: BillingRun) {
    NoRepeats(r.payers) && |r.report| <= |r.payers|
    && (forall i :: 0 <= i < |r.report| ==> r.report[i].payer == r.payers[i])
    && (!r.phase.Between? ==> |r.report| < |r.payers|)
  }

  /** A stop that the period lock was named for: the row was there, and rows are not deleted. */
  predicate StopsTruly(w: World, run: RunId)
    requires run in w.runs
  {
    var r := w.runs[run];
    r.phase.Stopped? && r.phase.namesThePeriod ==> |r.report| < |r.payers| && r.KeyAt(|r.report|) in w.invoices
  }

  /** The run has committed the invoice and not yet said so. */
  predicate HasCommitted(w: World, run: RunId, i: nat, key: PeriodKey) {
    run in w.runs && w.runs[run].phase.Committed? && i == |w.runs[run].report| && i < |w.runs[run].payers|
    && w.runs[run].KeyAt(i) == key
  }

  /** The run issued the invoice at its `i`th payer, whether or not it got to say so. */
  predicate Issues(w: World, run: RunId, i: nat, key: PeriodKey) {
    Says(w, run, i, Issued, key) || HasCommitted(w, run, i, key)
  }

  ghost predicate Sound(before: set<PeriodKey>, w: World) {
    before <= w.invoices.Keys
    && (forall run :: run in w.runs ==> OneLineEach(w.runs[run]) && StopsTruly(w, run))
    && (forall run, i, key :: Issues(w, run, i, key) ==> key in w.invoices && key !in before)
    && (forall run, i, key :: Says(w, run, i, AlreadyIssued, key) ==> key in w.invoices)
    && (forall r, i, q, j, key :: Issues(w, r, i, key) && Issues(w, q, j, key) ==> r == q && i == j)
    && (forall key :: key in w.invoices && key !in before ==> exists run, i :: Issues(w, run, i, key))
    && (forall key :: key in w.invoices ==> w.invoices[key].issued <= w.invoices[key].books.lines)
  }

  // ---------------------------------------------------------------- what a step keeps

  /** A run whose lines so far, whose payers and whose stop are as they were. */
  lemma SaysNoMore(before: set<PeriodKey>, w: World, after: World, run: RunId)
    requires Sound(before, w) && after.invoices == w.invoices
    requires run in after.runs && after.runs == w.runs[run := after.runs[run]]
    requires if run in w.runs then after.runs[run].report == w.runs[run].report
                                   && after.runs[run].payers == w.runs[run].payers
                                   && after.runs[run].garage.id == w.runs[run].garage.id
                                   && after.runs[run].period == w.runs[run].period
                                   && (after.runs[run].phase.Committed? <==> w.runs[run].phase.Committed?)
             else after.runs[run].report == [] && after.runs[run].phase.Between?
    requires OneLineEach(after.runs[run]) && StopsTruly(after, run)
    ensures Sound(before, after)
  {
    hide OneLineEach, StopsTruly;
    forall q, i, o, key ensures Says(after, q, i, o, key) <==> Says(w, q, i, o, key) {}
    forall q, i, key ensures Issues(after, q, i, key) <==> Issues(w, q, i, key) {}
    forall q | q in after.runs ensures StopsTruly(after, q) {
      if q != run {
        StopsStill(w, after, q);
      }
    }
    IssuersStay(before, w, after);
  }

  lemma StopsStill(w: World, after: World, run: RunId)
    requires run in w.runs && run in after.runs && after.runs[run] == w.runs[run] && StopsTruly(w, run)
    requires w.invoices.Keys <= after.invoices.Keys
    ensures StopsTruly(after, run)
  {}

  /** Where every issuer is one still and no invoice is new, every new invoice has its issuer. */
  lemma IssuersStay(before: set<PeriodKey>, w: World, after: World)
    requires Sound(before, w) && after.invoices.Keys == w.invoices.Keys
    requires forall run, i, key :: Issues(w, run, i, key) ==> Issues(after, run, i, key)
    ensures forall key :: key in after.invoices && key !in before ==> exists run, i :: Issues(after, run, i, key)
  {
    hide Issues, OneLineEach, StopsTruly;
    forall key | key in after.invoices && key !in before ensures exists run, i :: Issues(after, run, i, key) {
      var run, i :| Issues(w, run, i, key);
      assert Issues(after, run, i, key);
    }
  }

  /** A line more is all that a report says more, and a commit reported as issued is still the one issue. */
  lemma SaysMore(w: World, after: World, run: RunId, outcome: RunOutcome)
    requires run in w.runs && OneLineEach(w.runs[run]) && |w.runs[run].report| < |w.runs[run].payers|
    requires after.runs == w.runs[run := Reported(w.runs[run], outcome)]
    requires outcome.Issued? <==> w.runs[run].phase.Committed?
    ensures forall q, i, o, key :: Says(after, q, i, o, key)
              <==> Says(w, q, i, o, key)
                   || (q == run && i == |w.runs[run].report| && o == outcome
                       && key == w.runs[run].KeyAt(|w.runs[run].report|))
    ensures forall q, i, key :: Issues(after, q, i, key) <==> Issues(w, q, i, key)
    ensures OneLineEach(after.runs[run]) && after.runs[run].phase.Between?
  {}

  /** A line reported: ISSUED by a run that has committed, ALREADY_ISSUED of an invoice that is there. */
  lemma Reporting(before: set<PeriodKey>, w: World, after: World, run: RunId, outcome: RunOutcome)
    requires Sound(before, w) && Ready(w, run) && after.runs == w.runs[run := Reported(w.runs[run], outcome)]
    requires after.invoices == w.invoices && (outcome.Issued? <==> w.runs[run].phase.Committed?)
    requires outcome.AlreadyIssued? ==> w.runs[run].KeyAt(|w.runs[run].report|) in w.invoices
    ensures Sound(before, after)
  {
    hide Reported, Issues;
    SaysMore(w, after, run, outcome);
    forall q | q in after.runs ensures StopsTruly(after, q) {
      if q != run {
        StopsStill(w, after, q);
      }
    }
    IssuersStay(before, w, after);
  }

  /** An invoice committed, where there was none. */
  lemma Committing(before: set<PeriodKey>, w: World, after: World, run: RunId)
    requires Sound(before, w) && Ready(w, run) && !w.runs[run].phase.Committed?
    requires after.runs == w.runs[run := w.runs[run].(phase := Committed)]
    requires var key := w.runs[run].KeyAt(|w.runs[run].report|);
             key !in w.invoices && key in after.invoices && after.invoices == w.invoices[key := after.invoices[key]]
             && after.invoices[key].issued <= after.invoices[key].books.lines
    ensures Sound(before, after)
  {
    var k := |w.runs[run].report|;
    var at := w.runs[run].KeyAt(k);
    forall q, i, o, key ensures Says(after, q, i, o, key) <==> Says(w, q, i, o, key) {}
    forall q, i, key ensures Issues(after, q, i, key) <==> Issues(w, q, i, key) || (q == run && i == k && key == at) {}
    hide Says, Issues, HasCommitted;
    forall q | q in after.runs ensures StopsTruly(after, q) {
      if q != run {
        StopsStill(w, after, q);
      }
    }
    assert forall q, i :: !Issues(w, q, i, at);
    forall key | key in after.invoices && key !in before ensures exists q, i :: Issues(after, q, i, key) {
      if key in w.invoices {
        var q, i :| Issues(w, q, i, key);
        assert Issues(after, q, i, key);
      } else {
        assert Issues(after, run, k, key);
      }
    }
  }

  lemma MoneyKeeps(engine: Engine, before: set<PeriodKey>, w: World, key: PeriodKey, event: Ledger.Event)
    requires Sound(before, w) && key in w.invoices
    ensures var row := w.invoices[key];
            Sound(before, w.(invoices := w.invoices[key := row.(books := Ledger.After(engine, row.books, event))]))
  {
    hide Ledger.After, OneLineEach;
    var row := w.invoices[key];
    var after := w.(invoices := w.invoices[key := row.(books := Ledger.After(engine, row.books, event))]);
    LinesOnlyGrow(engine, row.books, event);
    assert row.issued <= Ledger.After(engine, row.books, event).lines;
    forall q, i, o, k ensures Says(after, q, i, o, k) <==> Says(w, q, i, o, k) {}
    forall q, i, k ensures Issues(after, q, i, k) <==> Issues(w, q, i, k) {}
    forall q | q in after.runs ensures StopsTruly(after, q) {
      StopsStill(w, after, q);
    }
    IssuersStay(before, w, after);
  }

  lemma LinesOnlyGrow(engine: Engine, b: Ledger.Books, event: Ledger.Event)
    ensures b.lines <= Ledger.After(engine, b, event).lines && Ledger.After(engine, b, event).dueAt == b.dueAt
  {
    if Ledger.Post(engine, b, event).Ok? {
      Sessions.EventsAppend(engine, b, event);
    }
  }

  lemma StepsKeepSound(engine: Engine, reference: PeriodKey -> string, before: set<PeriodKey>, w: World, step: Step)
    requires Sound(before, w)
    ensures Sound(before, Do(engine, reference, w, step))
  {
    hide Sound, PriceOf, Reported, ReferenceTaken, PeriodContaining;
    var after := Do(engine, reference, w, step);
    match step {
      case Begin(run, garage, day, payers) =>
        if after != w {
          SaysNoMore(before, w, after, run);
        }
      case PriceNext(run, documents) =>
        PricingKeeps(engine, reference, before, w, run, documents);
      case WriteInvoice(run, chosen, obstacle, namesThePeriod, now) =>
        if Ready(w, run) && w.runs[run].phase.Priced? {
          WritingKeeps(engine, reference, before, w, run, chosen, obstacle, namesThePeriod, now);
        }
      case ReportIssued(run) =>
        if Ready(w, run) && w.runs[run].phase.Committed? {
          EachRunIsSound(before, w, run);
          Reporting(before, w, after, run, Issued);
        }
      case ReadBack(run) =>
        ReadingBackKeeps(engine, reference, before, w, run);
      case Die(run) =>
        if run in w.runs {
          EachRunIsSound(before, w, run);
          SaysNoMore(before, w, after, run);
        }
      case Money(key, event) =>
        if key in w.invoices {
          MoneyKeeps(engine, before, w, key, event);
        }
    }
  }

  lemma EachRunIsSound(before: set<PeriodKey>, w: World, run: RunId)
    requires Sound(before, w) && run in w.runs
    ensures OneLineEach(w.runs[run]) && StopsTruly(w, run)
  {}

  lemma PricingKeeps(engine: Engine, reference: PeriodKey -> string, before: set<PeriodKey>, w: World, run: RunId,
                     documents: Option<seq<Agreement>>)
    requires Sound(before, w)
    ensures Sound(before, Do(engine, reference, w, PriceNext(run, documents)))
  {
    hide Sound, PriceOf, Reported;
    if Ready(w, run) && w.runs[run].phase.Between? {
      var r, after := w.runs[run], Do(engine, reference, w, PriceNext(run, documents));
      EachRunIsSound(before, w, run);
      match PriceOf(r.garage, r.period, r.payers[|r.report|], documents) {
        case None => Reporting(before, w, after, run, RunRefused);
        case Some(lines) =>
          if lines == [] {
            Reporting(before, w, after, run, NothingBillable);
          } else {
            SaysNoMore(before, w, after, run);
          }
      }
    }
  }

  lemma ReadingBackKeeps(engine: Engine, reference: PeriodKey -> string, before: set<PeriodKey>, w: World, run: RunId)
    requires Sound(before, w)
    ensures Sound(before, Do(engine, reference, w, ReadBack(run)))
  {
    hide Sound, Reported;
    if Ready(w, run) && w.runs[run].phase.Stopped? {
      var r := w.runs[run];
      EachRunIsSound(before, w, run);
      var outcome := if r.KeyAt(|r.report|) in w.invoices || r.phase.namesThePeriod then AlreadyIssued
                     else if r.phase.byAUnique then ConstraintViolated else RunRefused;
      Reporting(before, w, Do(engine, reference, w, ReadBack(run)), run, outcome);
    }
  }

  lemma WritingKeeps(engine: Engine, reference: PeriodKey -> string, before: set<PeriodKey>, w: World, run: RunId,
                     chosen: Option<TaxSet>, obstacle: Obstacle, namesThePeriod: bool, now: Instant)
    requires Sound(before, w) && Ready(w, run) && w.runs[run].phase.Priced?
    ensures Sound(before, Written(engine, reference, w, run, chosen, obstacle, namesThePeriod, now))
  {
    hide Sound, Reported, ReferenceTaken, Ledger.Issue;
    var r := w.runs[run];
    var after := Written(engine, reference, w, run, chosen, obstacle, namesThePeriod, now);
    EachRunIsSound(before, w, run);
    var key := r.KeyAt(|r.report|);
    var taken := key in w.invoices || ReferenceTaken(w.invoices, reference(key));
    if Ledger.Issue(engine, r.phase.lines, chosen, r.garage.zone.dayStart(r.period.startDay), now).Refused?
       || obstacle.GuardOnTheInvoice? || (!obstacle.CheckOnTheInvoice? && (taken || obstacle.GuardOnALine?))
    {
      SaysNoMore(before, w, after, run);
    } else if obstacle.CheckOnTheInvoice? || obstacle.CheckOnALineOrAtCommit? {
      Reporting(before, w, after, run, ConstraintViolated);
    } else {
      Committing(before, w, after, run);
    }
  }

  /** Over any number of runs at once, interleaved at every transaction, with runs dying anywhere -- between the
      commit and the report too: each run reports one line per payer, in order; every invoice that was not there
      before was issued by one run at one payer, and ISSUED is said of it there and nowhere else, or has yet to be;
      ALREADY_ISSUED is said only of an invoice that exists; and every line an invoice was issued with is still the
      beginning of its lines, whatever happens to it since. */
  lemma {:induction false} ConcurrentRunsAreSound(engine: Engine, reference: PeriodKey -> string, start: World,
                                                  steps: seq<Step>)
    requires start.runs == map[]
    requires forall key :: key in start.invoices ==> start.invoices[key].issued <= start.invoices[key].books.lines
    ensures Sound(start.invoices.Keys, Reach(engine, reference, start, steps))
  {
    hide Do;
    if steps != [] {
      var front := steps[..|steps| - 1];
      ConcurrentRunsAreSound(engine, reference, start, front);
      StepsKeepSound(engine, reference, start.invoices.Keys, Reach(engine, reference, start, front),
                     steps[|steps| - 1]);
    }
  }

  /** Where no run is left holding a commit it has not reported, ISSUED is said exactly once of every new invoice:
      one run, one line. A run that dies with the commit in hand is the one way an invoice goes unreported. */
  lemma EveryNewInvoiceIsReported(engine: Engine, reference: PeriodKey -> string, start: World, steps: seq<Step>,
                                  key: PeriodKey)
    requires start.runs == map[]
    requires forall k :: k in start.invoices ==> start.invoices[k].issued <= start.invoices[k].books.lines
    ensures var w := Reach(engine, reference, start, steps);
            key in w.invoices && key !in start.invoices ==>
              ((exists run, i :: Says(w, run, i, Issued, key)) <==> !(exists run, i :: HasCommitted(w, run, i, key)))
  {
    ConcurrentRunsAreSound(engine, reference, start, steps);
    hide Do, Says, HasCommitted, OneLineEach, StopsTruly, Reach;
    var w := Reach(engine, reference, start, steps);
    if key in w.invoices && key !in start.invoices {
      var run, i :| Issues(w, run, i, key);
      SaidOrHeld(w, run, i, key);
      forall q, j ensures Says(w, q, j, Issued, key) ==> q == run && i == j {
        assert Says(w, q, j, Issued, key) ==> Issues(w, q, j, key);
      }
      forall q, j ensures HasCommitted(w, q, j, key) ==> q == run && i == j {
        assert HasCommitted(w, q, j, key) ==> Issues(w, q, j, key);
      }
    }
  }

  lemma SaidOrHeld(w: World, run: RunId, i: nat, key: PeriodKey)
    ensures !(Says(w, run, i, Issued, key) && HasCommitted(w, run, i, key))
  {}

  /** The one way: a run dies after its commit, and whatever is done then its invoice stands unreported for good. */
  lemma ACommitLeftUnreported(engine: Engine, reference: PeriodKey -> string, start: World, steps: seq<Step>,
                              run: RunId, i: nat, key: PeriodKey)
    requires HasCommitted(start, run, i, key)
    ensures var w := Reach(engine, reference, Do(engine, reference, start, Die(run)), steps);
            HasCommitted(w, run, i, key) && !Says(w, run, i, Issued, key)
  {
    DeadRunsHold(engine, reference, Do(engine, reference, start, Die(run)), steps, run, i, key);
  }

  lemma {:induction false} DeadRunsHold(engine: Engine, reference: PeriodKey -> string, start: World, steps: seq<Step>,
                                        run: RunId, i: nat, key: PeriodKey)
    requires HasCommitted(start, run, i, key) && !start.runs[run].live
    ensures var w := Reach(engine, reference, start, steps); HasCommitted(w, run, i, key) && !w.runs[run].live
  {
    hide Do;
    if steps != [] {
      var front := steps[..|steps| - 1];
      DeadRunsHold(engine, reference, start, front, run, i, key);
      DeadRunsStay(engine, reference, Reach(engine, reference, start, front), steps[|steps| - 1], run);
    }
  }

  lemma DeadRunsStay(engine: Engine, reference: PeriodKey -> string, w: World, step: Step, run: RunId)
    requires run in w.runs && !w.runs[run].live
    ensures run in Do(engine, reference, w, step).runs && Do(engine, reference, w, step).runs[run] == w.runs[run]
  {
    hide Ledger.After, Ledger.Issue, PriceOf, ReferenceTaken, PeriodContaining, Reported;
  }

  /** An invoice, once there, stays, with the lines it was issued with -- whatever a later run would price or tax
      it at, with whatever documents and sets. */
  lemma {:induction false} IssuedLinesNeverChange(engine: Engine, reference: PeriodKey -> string, start: World,
                                                  steps: seq<Step>, key: PeriodKey)
    requires key in start.invoices
    ensures var w := Reach(engine, reference, start, steps);
            key in w.invoices && w.invoices[key].issued == start.invoices[key].issued
            && w.invoices[key].reference == start.invoices[key].reference
            && w.invoices[key].pricing == start.invoices[key].pricing
            && start.invoices[key].books.lines <= w.invoices[key].books.lines
            && w.invoices[key].books.dueAt == start.invoices[key].books.dueAt
  {
    hide Do;
    if steps != [] {
      var front := steps[..|steps| - 1];
      IssuedLinesNeverChange(engine, reference, start, front, key);
      RowAfterStep(engine, reference, Reach(engine, reference, start, front), steps[|steps| - 1], key);
    }
  }

  /** What a step does to an invoice that is there: nothing, or a money event to its books. */
  lemma RowAfterStep(engine: Engine, reference: PeriodKey -> string, w: World, step: Step, key: PeriodKey)
    requires key in w.invoices
    ensures var after := Do(engine, reference, w, step).invoices;
            key in after && after[key] == w.invoices[key].(books := after[key].books)
            && w.invoices[key].books.lines <= after[key].books.lines
            && after[key].books.dueAt == w.invoices[key].books.dueAt
  {
    hide Ledger.After, Ledger.Issue, PriceOf, ReferenceTaken, PeriodContaining, Reported;
    if step.Money? && step.key == key {
      LinesOnlyGrow(engine, w.invoices[key].books, step.event);
    }
  }

  /** What a step does to a run: nothing to its report, or one line more -- and ISSUED only by a run that had
      committed, which it does only where there was no row. */
  lemma RunAfterStep(engine: Engine, reference: PeriodKey -> string, w: World, step: Step, run: RunId)
    requires run in w.runs
    ensures var r := w.runs[run];
            run in Do(engine, reference, w, step).runs
            && var after := Do(engine, reference, w, step).runs[run];
               after.payers == r.payers && after.garage.id == r.garage.id && after.period == r.period
               && (after.report == r.report
                   || (|r.report| < |r.payers| && |after.report| == |r.report| + 1
                       && after.report[..|r.report|] == r.report
                       && after.phase.Between? && (after.report[|r.report|].outcome.Issued? ==> r.phase.Committed?)))
               && (after.phase.Committed? && !r.phase.Committed? ==>
                     after.report == r.report && |r.report| < |r.payers| && r.KeyAt(|r.report|) !in w.invoices)
  {
    hide Ledger.After, Ledger.Issue, PriceOf, ReferenceTaken, PeriodContaining;
  }

  /** A payer whose period is invoiced before its turn in a run is never issued again: its line, if the run gets
      to it, says the documents did not price, nothing was billable, it was already issued, or a constraint. */
  lemma {:induction false} AReRunNeverIssues(engine: Engine, reference: PeriodKey -> string, start: World,
                                             steps: seq<Step>, run: RunId, i: nat)
    requires run in start.runs && |start.runs[run].report| <= i < |start.runs[run].payers|
    requires start.runs[run].KeyAt(i) in start.invoices
    requires |start.runs[run].report| == i ==> !start.runs[run].phase.Committed?
    ensures var w := Reach(engine, reference, start, steps);
            run in w.runs && w.runs[run].payers == start.runs[run].payers
            && w.runs[run].garage.id == start.runs[run].garage.id && w.runs[run].period == start.runs[run].period
            && !Issues(w, run, i, start.runs[run].KeyAt(i))
  {
    hide Do;
    if steps != [] {
      var front, step := steps[..|steps| - 1], steps[|steps| - 1];
      AReRunNeverIssues(engine, reference, start, front, run, i);
      IssuedLinesNeverChange(engine, reference, start, front, start.runs[run].KeyAt(i));
      var w := Reach(engine, reference, start, front);
      RunAfterStep(engine, reference, w, step, run);
      var report := Do(engine, reference, w, step).runs[run].report;
      assert i < |w.runs[run].report| ==> report[i] == report[..|w.runs[run].report|][i];
    }
  }

  /** Every invoice's books are derived. */
  ghost predicate AllDerived(invoices: map<PeriodKey, Row>) {
    forall key :: key in invoices ==> Ledger.Derived(invoices[key].books)
  }

  /** And every invoice's `paid_at` is derived, from the moment it is issued. */
  lemma {:induction false} EveryInvoiceIsDerived(engine: Engine, reference: PeriodKey -> string, start: World,
                                                 steps: seq<Step>)
    requires AllDerived(start.invoices)
    ensures AllDerived(Reach(engine, reference, start, steps).invoices)
  {
    hide Do;
    if steps != [] {
      var front := steps[..|steps| - 1];
      EveryInvoiceIsDerived(engine, reference, start, front);
      StepKeepsDerived(engine, reference, Reach(engine, reference, start, front), steps[|steps| - 1]);
    }
  }

  lemma StepKeepsDerived(engine: Engine, reference: PeriodKey -> string, w: World, step: Step)
    requires AllDerived(w.invoices)
    ensures AllDerived(Do(engine, reference, w, step).invoices)
  {
    hide Ledger.After, Ledger.Issue, TotalMinor, Ledger.PaidMinor, PriceOf, ReferenceTaken, PeriodContaining;
    if step.Money? && step.key in w.invoices {
      Ledger.EventsFollow(engine, w.invoices[step.key].books, step.event);
    }
    if step.WriteInvoice? && Ready(w, step.run) && w.runs[step.run].phase.Priced? {
      var r := w.runs[step.run];
      IssuedIsDerived(engine, r.phase.lines, step.chosen, r.garage.zone.dayStart(r.period.startDay), step.now);
    }
  }

  /** Every invoice falls due as its period starts at its garage, and every run works by its garage's own clock. */
  ghost predicate DueAsThePeriodStarts(clock: GarageId -> Zone, w: World) {
    (forall key :: key in w.invoices ==> w.invoices[key].books.dueAt == clock(key.garage).dayStart(key.start))
    && forall run :: run in w.runs ==> w.runs[run].garage.zone == clock(w.runs[run].garage.id)
  }

  /** So an invoice falls due on the first day of its period, and no event moves it from there. */
  lemma {:induction false} InvoicesFallDueAsTheirPeriodStarts(engine: Engine, reference: PeriodKey -> string,
                                                              clock: GarageId -> Zone, start: World, steps: seq<Step>)
    requires DueAsThePeriodStarts(clock, start)
    requires forall step :: step in steps && step.Begin? ==> step.garage.zone == clock(step.garage.id)
    ensures DueAsThePeriodStarts(clock, Reach(engine, reference, start, steps))
  {
    hide Do, DueAsThePeriodStarts;
    if steps != [] {
      var front, step := steps[..|steps| - 1], steps[|steps| - 1];
      assert steps == front + [step];
      InvoicesFallDueAsTheirPeriodStarts(engine, reference, clock, start, front);
      StepKeepsDueAt(engine, reference, clock, Reach(engine, reference, start, front), step);
    }
  }

  lemma StepKeepsDueAt(engine: Engine, reference: PeriodKey -> string, clock: GarageId -> Zone, w: World, step: Step)
    requires DueAsThePeriodStarts(clock, w)
    requires step.Begin? ==> step.garage.zone == clock(step.garage.id)
    ensures DueAsThePeriodStarts(clock, Do(engine, reference, w, step))
  {
    hide Do;
    var after := Do(engine, reference, w, step);
    forall run | run in after.runs ensures after.runs[run].garage.zone == clock(after.runs[run].garage.id) {
      RunKeepsItsClock(engine, reference, w, step, run);
    }
    forall key | key in after.invoices
      ensures after.invoices[key].books.dueAt == clock(key.garage).dayStart(key.start)
    {
      if key in w.invoices {
        RowAfterStep(engine, reference, w, step, key);
      } else {
        NewRowIsDue(engine, reference, w, step, key);
      }
    }
  }

  lemma RunKeepsItsClock(engine: Engine, reference: PeriodKey -> string, w: World, step: Step, run: RunId)
    requires run in Do(engine, reference, w, step).runs
    ensures var g := Do(engine, reference, w, step).runs[run].garage;
            if run in w.runs then g == w.runs[run].garage else step.Begin? && g == step.garage
  {
    hide Ledger.After, Ledger.Issue, PriceOf, ReferenceTaken, PeriodContaining, WellFormed;
  }

  lemma NewRowIsDue(engine: Engine, reference: PeriodKey -> string, w: World, step: Step, key: PeriodKey)
    requires key in Do(engine, reference, w, step).invoices && key !in w.invoices
    ensures step.WriteInvoice? && step.run in w.runs && key.garage == w.runs[step.run].garage.id
    ensures Do(engine, reference, w, step).invoices[key].books.dueAt == w.runs[step.run].garage.zone.dayStart(key.start)
  {
    hide Ledger.After, Ledger.Issue, PriceOf, ReferenceTaken, PeriodContaining, WellFormed, Reported;
    var r := w.runs[step.run];
    IssuedIsDerived(engine, r.phase.lines, step.chosen, r.garage.zone.dayStart(r.period.startDay), step.now);
  }

  lemma IssuedIsDerived(engine: Engine, lines: seq<Line>, chosen: Option<TaxSet>, dueAt: Instant, now: Instant)
    ensures var issued := Ledger.Issue(engine, lines, chosen, dueAt, now);
            issued.Ok? ==> Ledger.Derived(issued.value) && issued.value.dueAt == dueAt
  {}

  // ---------------------------------------------------------------- one run on its own

  /** A payer's turn with nobody else's step in between: what its line says. */
  function TurnOf(engine: Engine, invoices: map<PeriodKey, Row>, key: PeriodKey, reference: string,
                  price: Option<seq<Line>>, chosen: Option<TaxSet>, dueAt: Instant, obstacle: Obstacle,
                  now: Instant): RunOutcome
  {
    if price.None? then RunRefused
    else if price.value == [] then NothingBillable
    else if Ledger.Issue(engine, price.value, chosen, dueAt, now).Refused? || obstacle.GuardOnTheInvoice? then
      (if key in invoices then AlreadyIssued else RunRefused)
    else if obstacle.CheckOnTheInvoice? then ConstraintViolated
    else if key in invoices then AlreadyIssued
    else if ReferenceTaken(invoices, reference) then ConstraintViolated
    else if obstacle.GuardOnALine? then RunRefused
    else if obstacle.CheckOnALineOrAtCommit? then ConstraintViolated
    else Issued
  }

  /** When a turn says what. An invoice is issued where there is something to bill, it can be taxed, nothing stands in
      the way, and neither the period nor the reference has one; a check is never read as an invoice that is there; and
      a tax refusal or the guard is read back against the period. */
  lemma WhatATurnSays(engine: Engine, invoices: map<PeriodKey, Row>, key: PeriodKey, reference: string,
                      price: Option<seq<Line>>, chosen: Option<TaxSet>, dueAt: Instant, obstacle: Obstacle,
                      now: Instant)
    ensures var says := TurnOf(engine, invoices, key, reference, price, chosen, dueAt, obstacle, now);
            var billable := price.Some? && price.value != [];
            var taxed := billable && chosen.Some? && forall l :: l in price.value ==> l.kind != Tax;
            var named := exists k :: k in invoices && invoices[k].reference == reference;
            (says == NothingBillable <==> price == Some([]))
            && (says == Issued <==> taxed && obstacle == Clear && key !in invoices && !named)
            && (says == AlreadyIssued <==> billable && key in invoices && !(taxed && obstacle == CheckOnTheInvoice))
            && (says == RunRefused
                <==> price == None
                     || (billable && key !in invoices
                         && (!taxed || obstacle == GuardOnTheInvoice || (obstacle == GuardOnALine && !named))))
            && (says == ConstraintViolated
                <==> taxed && (obstacle == CheckOnTheInvoice
                               || (key !in invoices && ((named && obstacle != GuardOnTheInvoice)
                                                        || obstacle == CheckOnALineOrAtCommit))))
  {
    if price.Some? {
      TaxIsRefused(engine, price.value, chosen);
    }
  }

  /** A run begins with the period of its day and with nothing reported, once, at a garage there can be. */
  lemma ARunBegins(engine: Engine, reference: PeriodKey -> string, w: World, run: RunId, garage: Garage, day: Day,
                   payers: seq<PayerId>)
    requires run !in w.runs && WellFormed(garage) && NoRepeats(payers)
    ensures var after := Do(engine, reference, w, Begin(run, garage, day, payers));
            after.invoices == w.invoices && run in after.runs
            && after.runs[run].garage == garage && after.runs[run].payers == payers && after.runs[run].report == []
            && after.runs[run].live && after.runs[run].period.Contains(day)
            && exists k :: after.runs[run].period == PeriodAt(garage, k)
  {
    PeriodOfADay(garage, day);
  }

  /** A money event on an invoice is the ledger's, on that invoice and no other, and no run's business. */
  lemma MoneyIsTheLedgers(engine: Engine, reference: PeriodKey -> string, w: World, key: PeriodKey, event: Ledger.Event)
    requires key in w.invoices
    ensures var after := Do(engine, reference, w, Money(key, event));
            after.runs == w.runs && key in after.invoices
            && after.invoices[key].books == Ledger.After(engine, w.invoices[key].books, event)
            && after.invoices == w.invoices[key := w.invoices[key].(books := after.invoices[key].books)]
  {}

  /** How a turn ends: a commit is reported, a stop is read back, and anything else has been reported already. */
  function Finished(engine: Engine, reference: PeriodKey -> string, w: World, run: RunId): World {
    Do(engine, reference, Do(engine, reference, w, ReportIssued(run)), ReadBack(run))
  }

  lemma Finishing(engine: Engine, reference: PeriodKey -> string, w: World, run: RunId)
    requires run in w.runs && !w.runs[run].phase.Priced? && (!w.runs[run].phase.Between? ==> Ready(w, run))
    ensures var r, after := w.runs[run], Finished(engine, reference, w, run);
            run in after.runs && after.invoices == w.invoices
            && after.runs[run] == match r.phase
               case Committed => Reported(r, Issued)
               case Stopped(byAUnique, names) =>
                 Reported(r, if r.KeyAt(|r.report|) in w.invoices || names then AlreadyIssued
                             else if byAUnique then ConstraintViolated else RunRefused)
               case _ => r
  {
    hide WellFormed;
  }

  /** The write, and the end of the turn. */
  lemma WrittenTurn(engine: Engine, reference: PeriodKey -> string, w: World, run: RunId, chosen: Option<TaxSet>,
                    obstacle: Obstacle, names: bool, now: Instant)
    requires Ready(w, run) && w.runs[run].phase.Priced? && w.runs[run].phase.lines != []
    ensures var r := w.runs[run];
            var key, due := r.KeyAt(|r.report|), r.garage.zone.dayStart(r.period.startDay);
            var turn := TurnOf(engine, w.invoices, key, reference(key), Some(r.phase.lines), chosen, due, obstacle,
                               now);
            var after := Finished(engine, reference, Written(engine, reference, w, run, chosen, obstacle, names, now),
                                  run);
            run in after.runs && after.runs[run] == Reported(r, turn)
            && (key in after.invoices && key !in w.invoices <==> turn.Issued?)
            && (turn.Issued? ==> after.invoices[key].reference == reference(key))
            && (forall k :: k in w.invoices ==> k in after.invoices && after.invoices[k] == w.invoices[k])
  {
    hide Finished, Ledger.Issue, ReferenceTaken, WellFormed;
    Finishing(engine, reference, Written(engine, reference, w, run, chosen, obstacle, names, now), run);
  }

  /** All of a turn's steps, one after the other. */
  function TakeATurn(engine: Engine, reference: PeriodKey -> string, w: World, run: RunId,
                     documents: Option<seq<Agreement>>, chosen: Option<TaxSet>, obstacle: Obstacle, names: bool,
                     now: Instant): World
  {
    var priced := Do(engine, reference, w, PriceNext(run, documents));
    Finished(engine, reference, Do(engine, reference, priced, WriteInvoice(run, chosen, obstacle, names, now)), run)
  }

  /** What the turn's line says, from the world it is taken in. */
  function TurnIn(engine: Engine, reference: PeriodKey -> string, w: World, run: RunId,
                  documents: Option<seq<Agreement>>, chosen: Option<TaxSet>, obstacle: Obstacle,
                  now: Instant): RunOutcome
    requires Ready(w, run)
  {
    var r := w.runs[run];
    var key := r.KeyAt(|r.report|);
    TurnOf(engine, w.invoices, key, reference(key), PriceOf(r.garage, r.period, r.payers[|r.report|], documents),
           chosen, r.garage.zone.dayStart(r.period.startDay), obstacle, now)
  }

  /** Where nothing comes between a turn's steps they come to its line and to the one invoice it may add. */
  lemma ATurnAlone(engine: Engine, reference: PeriodKey -> string, w: World, run: RunId,
                   documents: Option<seq<Agreement>>, chosen: Option<TaxSet>, obstacle: Obstacle, names: bool,
                   now: Instant)
    requires Ready(w, run) && w.runs[run].phase.Between?
    ensures var key := w.runs[run].KeyAt(|w.runs[run].report|);
            var turn := TurnIn(engine, reference, w, run, documents, chosen, obstacle, now);
            var after := TakeATurn(engine, reference, w, run, documents, chosen, obstacle, names, now);
            run in after.runs && after.runs[run] == Reported(w.runs[run], turn)
            && (key in after.invoices && key !in w.invoices <==> turn.Issued?)
            && (turn.Issued? ==> after.invoices[key].reference == reference(key))
            && (forall k :: k in w.invoices ==> k in after.invoices && after.invoices[k] == w.invoices[k])
  {
    hide PriceOf, Ledger.Issue, ReferenceTaken, WellFormed, Finished, Written, TurnOf;
    var r := w.runs[run];
    var price := PriceOf(r.garage, r.period, r.payers[|r.report|], documents);
    var priced := Do(engine, reference, w, PriceNext(run, documents));
    var written := Do(engine, reference, priced, WriteInvoice(run, chosen, obstacle, names, now));
    if price.Some? && price.value != [] {
      assert Ready(priced, run) && written == Written(engine, reference, priced, run, chosen, obstacle, names, now);
      WrittenTurn(engine, reference, priced, run, chosen, obstacle, names, now);
    } else {
      assert priced.runs[run] == Reported(r, if price.None? then RunRefused else NothingBillable) && written == priced;
      Finishing(engine, reference, priced, run);
      NoTurn(engine, w.invoices, r.KeyAt(|r.report|), reference(r.KeyAt(|r.report|)), price, chosen,
             r.garage.zone.dayStart(r.period.startDay), obstacle, now);
    }
  }

  lemma NoTurn(engine: Engine, invoices: map<PeriodKey, Row>, key: PeriodKey, reference: string,
               price: Option<seq<Line>>, chosen: Option<TaxSet>, dueAt: Instant, obstacle: Obstacle, now: Instant)
    requires price.None? || price.value == []
    ensures TurnOf(engine, invoices, key, reference, price, chosen, dueAt, obstacle, now)
            == if price.None? then RunRefused else NothingBillable
  {}

  /** What a reported line says of its payer, from the store before the run and after it. */
  predicate LineIsTrue(engine: Engine, before: map<PeriodKey, Row>, after: map<PeriodKey, Row>, key: PeriodKey,
                       price: Option<seq<Line>>, chosen: Option<TaxSet>, dueAt: Instant, obstacle: Obstacle,
                       now: Instant, outcome: RunOutcome)
  {
    (outcome.Issued? <==> key in after && key !in before)
    && (outcome.AlreadyIssued? ==> key in before)
    && (price == Some([]) <==> outcome.NothingBillable?)
    && (price.None? ==> outcome.RunRefused?)
    && (price.Some? && price.value != [] && key in before ==>
          if Ledger.Issue(engine, price.value, chosen, dueAt, now).Ok? && obstacle.CheckOnTheInvoice?
          then outcome.ConstraintViolated? else outcome.AlreadyIssued?)
  }

  lemma TurnIsTrue(engine: Engine, before: map<PeriodKey, Row>, earlier: map<PeriodKey, Row>,
                   after: map<PeriodKey, Row>, key: PeriodKey, reference: string, price: Option<seq<Line>>,
                   chosen: Option<TaxSet>, dueAt: Instant, obstacle: Obstacle, now: Instant)
    requires (key in earlier <==> key in before) && earlier.Keys <= after.Keys
    requires var outcome := TurnOf(engine, earlier, key, reference, price, chosen, dueAt, obstacle, now);
             after.Keys == earlier.Keys + (if outcome.Issued? then {key} else {})
    ensures LineIsTrue(engine, before, after, key, price, chosen, dueAt, obstacle, now,
                       TurnOf(engine, earlier, key, reference, price, chosen, dueAt, obstacle, now))
  {
    hide Ledger.Issue, ReferenceTaken;
  }

  lemma LinesStayTrue(engine: Engine, before: map<PeriodKey, Row>, earlier: map<PeriodKey, Row>,
                      after: map<PeriodKey, Row>, key: PeriodKey, price: Option<seq<Line>>, chosen: Option<TaxSet>,
                      dueAt: Instant, obstacle: Obstacle, now: Instant, outcome: RunOutcome)
    requires LineIsTrue(engine, before, earlier, key, price, chosen, dueAt, obstacle, now, outcome)
    requires key in earlier <==> key in after
    ensures LineIsTrue(engine, before, after, key, price, chosen, dueAt, obstacle, now, outcome)
  {}

  lemma SomePrice(g: Garage, p: Period, payer: PayerId, documents: Option<seq<Agreement>>)
    requires WellFormed(g) && PriceOf(g, p, payer, documents).Some?
    ensures documents.Some?
  {}

  class Invoices {
    var invoices: map<PeriodKey, Row>

    constructor (existing: map<PeriodKey, Row>)
      ensures invoices == existing
    {
      invoices := existing;
    }

    /** The price of one payer's period, refused where the documents fail to load or are billed elsewhere. */
    method Price(g: Garage, p: Period, payer: PayerId, documents: Option<seq<Agreement>>)
      returns (lines: Option<seq<Line>>)
      requires WellFormed(g)
      ensures lines == PriceOf(g, p, payer, documents)
    {
      hide PayersLines, SortedById, OwnedByFirstCharge;
      if documents.None? {
        return None;
      }
      var priced: seq<Agreement> := [];
      for i := 0 to |documents.value|
        invariant priced == NotOwned(g, documents.value[..i], p)
      {
        assert documents.value[..i + 1][..i] == documents.value[..i];
        if !OwnedByFirstCharge(g, documents.value[i], p) {
          priced := priced + [documents.value[i]];
        }
      }
      assert documents.value[..|documents.value|] == documents.value;
      var invoice := InvoiceForPeriod(g, priced, p, payer);
      lines := if invoice.Ok? then Some(invoice.value.lines) else None;
    }

    /** One payer of `run_billing`: everything that can refuse it stays inside its own turn. */
    method BillPayer(engine: Engine, reference: string, g: Garage, p: Period, payer: PayerId,
                     documents: Option<seq<Agreement>>, chosen: Option<TaxSet>, obstacle: Obstacle, now: Instant)
      returns (outcome: RunOutcome)
      requires WellFormed(g)
      modifies this
      ensures var key, price := PeriodKey(g.id, payer, p.startDay), PriceOf(g, p, payer, documents);
              outcome == TurnOf(engine, old(invoices), key, reference, price, chosen, g.zone.dayStart(p.startDay),
                                obstacle, now)
              && (if outcome.Issued?
                  then price.Some? && documents.Some?
                       && Ledger.Issue(engine, price.value, chosen, g.zone.dayStart(p.startDay), now).Ok?
                       && var books := Ledger.Issue(engine, price.value, chosen, g.zone.dayStart(p.startDay),
                                                    now).value;
                          key !in old(invoices)
                          && invoices
                             == old(invoices)[key := Row(reference, books.lines, books,
                                                         Pricing(g, p, documents.value, chosen))]
                  else invoices == old(invoices))
    {
      hide PriceOf, Ledger.Issue, ReferenceTaken;
      var price := Price(g, p, payer, documents);
      if price.None? {
        return RunRefused;
      }
      if price.value == [] {
        return NothingBillable;
      }
      var key := PeriodKey(g.id, payer, p.startDay);
      var taxed := Ledger.Issue(engine, price.value, chosen, g.zone.dayStart(p.startDay), now);
      if taxed.Refused? || obstacle.GuardOnTheInvoice? {
        return if key in invoices then AlreadyIssued else RunRefused;
      }
      if obstacle.CheckOnTheInvoice? {
        return ConstraintViolated;
      }
      if key in invoices || ReferenceTaken(invoices, reference) {
        return if key in invoices then AlreadyIssued else ConstraintViolated;
      }
      if obstacle.GuardOnALine? {
        return RunRefused;
      }
      if obstacle.CheckOnALineOrAtCommit? {
        return ConstraintViolated;
      }
      SomePrice(g, p, payer, documents);
      invoices := invoices[key := Row(reference, taxed.value.lines, taxed.value,
                                      Pricing(g, p, documents.value, chosen))];
      outcome := Issued;
    }

    /** `run_billing`: each payer in turn. An invoice is there afterwards and not before exactly when its payer's
        line says ISSUED; nothing that was there has changed; and ALREADY_ISSUED is said only of what was. */
    method RunBilling(engine: Engine, reference: PeriodKey -> string, g: Garage, day: Day, payers: seq<PayerId>,
                      documents: PayerId -> Option<seq<Agreement>>, chosen: PayerId -> Option<TaxSet>,
                      obstacle: PayerId -> Obstacle, now: Instant)
      returns (report: seq<RunLine>)
      requires WellFormed(g) && NoRepeats(payers)
      modifies this
      ensures |report| == |payers| && forall i :: 0 <= i < |payers| ==> report[i].payer == payers[i]
      ensures forall key :: key in old(invoices) ==> key in invoices && invoices[key] == old(invoices[key])
      ensures forall key :: key in invoices && key !in old(invoices) ==>
                key.garage == g.id && key.start == PeriodContaining(g, day).startDay
                && exists i :: 0 <= i < |payers| && payers[i] == key.payer && report[i].outcome.Issued?
      ensures forall i :: 0 <= i < |payers| ==>
                var p := PeriodContaining(g, day);
                LineIsTrue(engine, old(invoices), invoices, PeriodKey(g.id, payers[i], p.startDay),
                           PriceOf(g, p, payers[i], documents(payers[i])), chosen(payers[i]),
                           g.zone.dayStart(p.startDay), obstacle(payers[i]), now, report[i].outcome)
    {
      hide PriceOf, Ledger.Issue, ReferenceTaken, PeriodContaining, LineIsTrue, TurnOf;
      var p := PeriodContaining(g, day);
      report := [];
      for i := 0 to |payers|
        invariant |report| == i && forall k :: 0 <= k < i ==> report[k].payer == payers[k]
        invariant forall key :: key in old(invoices) ==> key in invoices && invoices[key] == old(invoices[key])
        invariant forall key :: key in invoices && key !in old(invoices) ==>
                    key.garage == g.id && key.start == p.startDay
                    && exists k :: 0 <= k < i && payers[k] == key.payer && report[k].outcome.Issued?
        invariant forall k :: 0 <= k < i ==>
                    LineIsTrue(engine, old(invoices), invoices, PeriodKey(g.id, payers[k], p.startDay),
                               PriceOf(g, p, payers[k], documents(payers[k])), chosen(payers[k]),
                               g.zone.dayStart(p.startDay), obstacle(payers[k]), now, report[k].outcome)
      {
        var payer, key := payers[i], PeriodKey(g.id, payers[i], p.startDay);
        ghost var price, due, earlier := PriceOf(g, p, payer, documents(payer)), g.zone.dayStart(p.startDay), invoices;
        var outcome := BillPayer(engine, reference(key), g, p, payer, documents(payer), chosen(payer), obstacle(payer),
                                 now);
        report := report + [RunLine(payer, outcome)];
        assert report[i].outcome == outcome;
        assert key in earlier <==> key in old(invoices);
        TurnIsTrue(engine, old(invoices), earlier, invoices, key, reference(key), price, chosen(payer), due,
                   obstacle(payer), now);
        forall k | 0 <= k < i
          ensures LineIsTrue(engine, old(invoices), invoices, PeriodKey(g.id, payers[k], p.startDay),
                             PriceOf(g, p, payers[k], documents(payers[k])), chosen(payers[k]),
                             due, obstacle(payers[k]), now, report[k].outcome)
        {
          LinesStayTrue(engine, old(invoices), earlier, invoices, PeriodKey(g.id, payers[k], p.startDay),
                        PriceOf(g, p, payers[k], documents(payers[k])), chosen(payers[k]), due, obstacle(payers[k]),
                        now, report[k].outcome);
        }
      }
    }
  }
}
