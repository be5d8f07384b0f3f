/** Whose lines are on an invoice that a run has issued: `invoice_for_period` of `invoice.py` under the filter of
    `billing_run.py`, for a payer with any number of agreements, and in every world the runs can reach. */
module BilledLines {
  import opened Calendar
  import opened Garages
  import opened Agreements
  import opened Cycle
  import opened Lines
  import opened Invoicing
  import opened Taxes
  import Ledger
  import opened BillingRuns
  import opened Options

  /** The lines that name one agreement. */
  function LinesUnder(lines: seq<Line>, id: AgreementId): seq<Line> {
    if lines == [] then []
    else
      var last := lines[|lines| - 1];
      LinesUnder(lines[..|lines| - 1], id) + (if last.agreement == Some(id) then [last] else [])
  }

  lemma {:induction false} UnderBoth(a: seq<Line>, b: seq<Line>, id: AgreementId)
    ensures LinesUnder(a + b, id) == LinesUnder(a, id) + LinesUnder(b, id)
  {
    if b == [] {
      assert a + b == a;
    } else {
      UnderBoth(a, b[..|b| - 1], id);
      assert (a + b)[..|a + b| - 1] == a + b[..|b| - 1];
    }
  }

  predicate AllUnder(lines: seq<Line>, id: AgreementId) {
    forall i :: 0 <= i < |lines| ==> lines[i].agreement == Some(id) && !lines[i].kind.Tax?
  }

  lemma {:induction false} UnderOne(lines: seq<Line>, owner: AgreementId, id: AgreementId)
    requires forall i :: 0 <= i < |lines| ==> lines[i].agreement == Some(owner)
    ensures LinesUnder(lines, id) == if id == owner then lines else []
  {
    if lines != [] {
      UnderOne(lines[..|lines| - 1], owner, id);
    }
  }

  lemma {:induction false} FeesAreTheAgreements(a: Agreement, fees: seq<Fee>, p: Period)
    requires p.Days() > 0
    ensures AllUnder(RecurringLines(a, fees, p), a.id) && AllUnder(OneTimeLines(a, fees, p), a.id)
  {
    hide RecurringAmount;
    if fees != [] {
      FeesAreTheAgreements(a, fees[..|fees| - 1], p);
    }
  }

  lemma RunLinesAreTheAgreements(a: Agreement, p: Period)
    ensures AllUnder(RunLines(a, p), a.id)
  {
    hide BilledDays, MonthlyAmount, RecurringLines, OneTimeLines;
    if p.Days() > 0 {
      FeesAreTheAgreements(a, a.fees, p);
    }
  }

  predicate IdsApart(items: seq<Agreement>) {
    forall i, j :: 0 <= i < j < |items| ==> items[i].id != items[j].id
  }

  lemma {:induction false} InsertKeepsApart(a: Agreement, sorted: seq<Agreement>)
    requires IdsApart(sorted) && forall x :: x in sorted ==> x.id != a.id
    ensures IdsApart(InsertById(a, sorted))
  {
    if sorted != [] && sorted[0].id < a.id {
      var rest := InsertById(a, sorted[1..]);
      InsertKeepsApart(a, sorted[1..]);
      InsertByIdKeeps(a, sorted[1..]);
      forall j | 0 <= j < |rest| ensures rest[j].id != sorted[0].id {
        assert rest[j] in multiset(sorted[1..]) + multiset{a};
      }
    }
  }

  lemma {:induction false} SortingKeepsApart(items: seq<Agreement>)
    requires IdsApart(items)
    ensures IdsApart(SortedById(items))
  {
    if items != [] {
      SortingKeepsApart(items[1..]);
      SortingKeepsTheAgreements(items[1..]);
      InsertKeepsApart(items[0], SortedById(items[1..]));
    }
  }

  lemma {:induction false} NotOwnedAre(g: Garage, items: seq<Agreement>, p: Period)
    requires WellFormed(g)
    ensures forall a :: a in NotOwned(g, items, p) <==> a in items && !OwnedByFirstCharge(g, a, p)
    ensures IdsApart(items) ==> IdsApart(NotOwned(g, items, p))
  {
    hide OwnedByFirstCharge, WellFormed;
    if items != [] {
      var front, last := items[..|items| - 1], items[|items| - 1];
      NotOwnedAre(g, front, p);
      assert items == front + [last];
      if IdsApart(items) {
        assert IdsApart(front);
        forall i | 0 <= i < |NotOwned(g, front, p)| ensures NotOwned(g, front, p)[i].id != last.id {
          assert NotOwned(g, front, p)[i] in front;
        }
      }
    }
  }

  /** What one agreement adds under an id. */
  lemma OneMorePayersLines(items: seq<Agreement>, last: Agreement, p: Period, payer: PayerId, id: AgreementId)
    ensures LinesUnder(PayersLines(items + [last], p, payer), id)
            == LinesUnder(PayersLines(items, p, payer), id)
               + (if last.id == id && last.payer == payer then RunLines(last, p) else [])
  {
    hide RunLines, LinesUnder;
    var before := PayersLines(items, p, payer);
    assert (items + [last])[..|items|] == items;
    RunLinesAreTheAgreements(last, p);
    UnderOne(RunLines(last, p), last.id, id);
    UnderBoth(before, RunLines(last, p), id);
    assert before + [] == before && LinesUnder(before, id) + [] == LinesUnder(before, id);
  }

  /** Among agreements with ids apart, the lines under one are its own and nobody else's. */
  lemma {:induction false} UnderThePayers(items: seq<Agreement>, p: Period, payer: PayerId, a: Agreement)
    requires IdsApart(items) && forall x :: x in items && x.id == a.id ==> x == a
    ensures LinesUnder(PayersLines(items, p, payer), a.id)
            == if a in items && a.payer == payer then RunLines(a, p) else []
  {
    hide RunLines, LinesUnder, PayersLines;
    if items == [] {
      NothingUnder(p, payer, a.id);
    } else {
      var front, last := items[..|items| - 1], items[|items| - 1];
      assert items == front + [last];
      UnderThePayers(front, p, payer, a);
      OneMorePayersLines(front, last, p, payer, a.id);
      assert [] + RunLines(a, p) == RunLines(a, p) && RunLines(a, p) + [] == RunLines(a, p);
      assert last in items;
      assert last == a ==> a !in front;
    }
  }

  lemma NothingUnder(p: Period, payer: PayerId, id: AgreementId)
    ensures LinesUnder(PayersLines([], p, payer), id) == []
  {}

  /** Every line belongs to one of the payer's agreements in the list. */
  lemma {:induction false} EachLineHasItsAgreement(items: seq<Agreement>, p: Period, payer: PayerId, l: Line)
    requires l in PayersLines(items, p, payer)
    ensures !l.kind.Tax? && exists a :: a in items && a.payer == payer && l.agreement == Some(a.id)
                                        && l in RunLines(a, p)
  {
    hide RunLines;
    var front, last := items[..|items| - 1], items[|items| - 1];
    assert items == front + [last];
    if last.payer == payer && l in RunLines(last, p) {
      RunLinesAreTheAgreements(last, p);
      assert last in items;
    } else {
      EachLineHasItsAgreement(front, p, payer, l);
    }
  }

  /** When a payer cannot be priced: its documents do not load, or one of its agreements that the run is to price is
      billed elsewhere. */
  lemma WhenThereIsNoPrice(g: Garage, k: int, payer: PayerId, documents: Option<seq<Agreement>>)
    requires WellFormed(g)
    ensures PriceOf(g, PeriodAt(g, k), payer, documents).None?
            <==> documents.None?
                 || exists a :: a in documents.value && a.payer == payer && a.garage != g.id
                                && k != PeriodIndex(g, a.startDay) && k != PeriodIndex(g, a.startDay) + 1
  {
    hide OwnedByFirstCharge, PayersLines, SortedById, NotOwned, PeriodIndex, PeriodAt;
    if documents.Some? {
      NotOwnedAre(g, documents.value, PeriodAt(g, k));
      forall a ensures OwnedByFirstCharge(g, a, PeriodAt(g, k))
                       <==> k == PeriodIndex(g, a.startDay) || k == PeriodIndex(g, a.startDay) + 1
      {
        FirstChargeOwnsTwo(g, a, k);
      }
    }
  }

  /** Whatever documents a payer has, one or many: what a run prices under each of its agreements is the run's share
      of that agreement -- nothing where its first charge owns the period, and its lines otherwise. */
  lemma TheRunPricesWhatItOwns(g: Garage, k: int, items: seq<Agreement>, payer: PayerId, a: Agreement)
    requires WellFormed(g) && IdsApart(items) && a in items
    ensures PriceOf(g, PeriodAt(g, k), payer, Some(items)).Some? ==>
              LinesUnder(PriceOf(g, PeriodAt(g, k), payer, Some(items)).value, a.id)
              == if a.payer == payer then RunAt(g, (j: int) => a)(k) else []
  {
    hide OwnedByFirstCharge, RunLines, BillingOrdinal, AllHomedHere, PayersLines, SortedById, NotOwned, LinesUnder;
    var p := PeriodAt(g, k);
    NotOwnedAre(g, items, p);
    SortingKeepsApart(NotOwned(g, items, p));
    SortingKeepsTheAgreements(NotOwned(g, items, p));
    UnderThePayers(SortedById(NotOwned(g, items, p)), p, payer, a);
  }

  // ---------------------------------------------------------------- every invoice a run has issued

  ghost predicate IsAPeriod(g: Garage, p: Period)
    requires WellFormed(g)
  {
    exists k :: p == PeriodAt(g, k)
  }

  /** The invoice is its documents' price, taxed. */
  ghost predicate PricedFromItsDocuments(engine: Engine, key: PeriodKey, row: Row) {
    var q := row.pricing;
    WellFormed(q.garage) && IsAPeriod(q.garage, q.period) && q.garage.id == key.garage && q.period.startDay == key.start
    && var price := PriceOf(q.garage, q.period, key.payer, Some(q.documents));
       price.Some? && price.value != [] && TaxAnInvoice(engine, price.value, q.chosen) == Ok(row.issued)
  }

  /** A run holds the price of its payer's documents until it has written it. */
  ghost predicate HoldsItsPrice(r: BillingRun) {
    WellFormed(r.garage) && IsAPeriod(r.garage, r.period)
    && (r.phase.Priced? && |r.report| < |r.payers| ==>
          r.phase.lines != []
          && PriceOf(r.garage, r.period, r.payers[|r.report|], Some(r.phase.documents)) == Some(r.phase.lines))
  }

  ghost predicate Priced(engine: Engine, before: set<PeriodKey>, w: World) {
    (forall run :: run in w.runs ==> HoldsItsPrice(w.runs[run]))
    && forall key :: key in w.invoices && key !in before ==> PricedFromItsDocuments(engine, key, w.invoices[key])
  }

  lemma BeginningHolds(g: Garage, day: Day, payers: seq<PayerId>)
    requires WellFormed(g)
    ensures HoldsItsPrice(BillingRun(g, PeriodContaining(g, day), payers, Between, [], true))
  {
    hide PeriodContaining, PriceOf, BillingOrdinal, WellFormed, PeriodIndex;
    PeriodOfADay(g, day);
  }

  lemma IssueKeepsTheLines(engine: Engine, lines: seq<Line>, chosen: Option<TaxSet>, dueAt: Instant, now: Instant)
    ensures var issued := Ledger.Issue(engine, lines, chosen, dueAt, now);
            issued.Ok? ==> TaxAnInvoice(engine, lines, chosen) == Ok(issued.value.lines)
  {}

  lemma RunKeepsItsPrice(engine: Engine, reference: PeriodKey -> string, w: World, step: Step, run: RunId)
    requires run in w.runs ==> HoldsItsPrice(w.runs[run])
    ensures run in Do(engine, reference, w, step).runs ==> HoldsItsPrice(Do(engine, reference, w, step).runs[run])
  {
    hide Ledger.After, Ledger.Issue, PriceOf, ReferenceTaken, PeriodContaining, WellFormed, IsAPeriod;
    if step.Begin? && WellFormed(step.garage) {
      BeginningHolds(step.garage, step.day, step.payers);
    }
    if step.PriceNext? && Ready(w, step.run) {
      var r := w.runs[step.run];
      if PriceOf(r.garage, r.period, r.payers[|r.report|], step.documents).Some? {
        SomePrice(r.garage, r.period, r.payers[|r.report|], step.documents);
      }
    }
  }

  lemma RowKeepsItsPrice(engine: Engine, reference: PeriodKey -> string, w: World, step: Step, key: PeriodKey)
    requires forall run :: run in w.runs ==> HoldsItsPrice(w.runs[run])
    requires key in w.invoices ==> PricedFromItsDocuments(engine, key, w.invoices[key])
    ensures key in Do(engine, reference, w, step).invoices ==>
              PricedFromItsDocuments(engine, key, Do(engine, reference, w, step).invoices[key])
  {
    hide Ledger.After, Ledger.Issue, PriceOf, ReferenceTaken, PeriodContaining, WellFormed, IsAPeriod, TaxAnInvoice,
         Reported;
    if step.WriteInvoice? && Ready(w, step.run) && w.runs[step.run].phase.Priced? {
      var r := w.runs[step.run];
      IssueKeepsTheLines(engine, r.phase.lines, step.chosen, r.garage.zone.dayStart(r.period.startDay), step.now);
    }
  }

  lemma StepKeepsPriced(engine: Engine, reference: PeriodKey -> string, before: set<PeriodKey>, w: World, step: Step)
    requires before <= w.invoices.Keys && Priced(engine, before, w)
    ensures Priced(engine, before, Do(engine, reference, w, step))
  {
    hide Do, HoldsItsPrice, PricedFromItsDocuments;
    var after := Do(engine, reference, w, step);
    forall run | run in after.runs ensures HoldsItsPrice(after.runs[run]) {
      RunKeepsItsPrice(engine, reference, w, step, run);
    }
    forall key | key in after.invoices && key !in before
      ensures PricedFromItsDocuments(engine, key, after.invoices[key])
    {
      RowKeepsItsPrice(engine, reference, w, step, key);
    }
  }

  lemma NothingPricedYet(engine: Engine, start: World)
    requires start.runs == map[]
    ensures Priced(engine, start.invoices.Keys, start)
  {}

  lemma InvoicesStay(engine: Engine, reference: PeriodKey -> string, start: World, steps: seq<Step>)
    ensures start.invoices.Keys <= Reach(engine, reference, start, steps).invoices.Keys
  {
    hide Reach;
    forall key | key in start.invoices ensures key in Reach(engine, reference, start, steps).invoices {
      IssuedLinesNeverChange(engine, reference, start, steps, key);
    }
  }

  /** In every world that runs can reach, an invoice they issued is the taxed price of its payer's documents at the
      garage's own period. */
  lemma {:induction false} EveryInvoiceIsItsDocumentsPrice(engine: Engine, reference: PeriodKey -> string, start: World,
                                                           steps: seq<Step>)
    requires start.runs == map[]
    ensures Priced(engine, start.invoices.Keys, Reach(engine, reference, start, steps))
  {
    hide Do, Priced;
    NothingPricedYet(engine, start);
    if steps != [] {
      var front := steps[..|steps| - 1];
      EveryInvoiceIsItsDocumentsPrice(engine, reference, start, front);
      InvoicesStay(engine, reference, start, front);
      StepKeepsPriced(engine, reference, start.invoices.Keys, Reach(engine, reference, start, front),
                      steps[|steps| - 1]);
    }
  }

  /** So an issued invoice bills each of its payer's agreements the run's share of the period, exactly, and no line
      on it is of an agreement whose first charge owns the period. */
  lemma IssuedInvoicesBillTheRunsShare(engine: Engine, reference: PeriodKey -> string, start: World, steps: seq<Step>,
                                       key: PeriodKey, a: Agreement, l: Line)
    requires start.runs == map[]
    ensures var w := Reach(engine, reference, start, steps);
            key in w.invoices && key !in start.invoices ==>
              var row := w.invoices[key];
              var q := row.pricing;
              WellFormed(q.garage)
              && (IdsApart(q.documents) && a in q.documents ==>
                    exists k :: q.period == PeriodAt(q.garage, k)
                      && LinesUnder(row.issued, a.id)
                         == (if a.payer == key.payer then RunAt(q.garage, (j: int) => a)(k) else []))
              && (l in row.issued && !l.kind.Tax? ==>
                    exists b :: b in q.documents && b.payer == key.payer && l.agreement == Some(b.id)
                                && !OwnedByFirstCharge(q.garage, b, q.period))
  {
    hide Do, HoldsItsPrice, WellFormed, PeriodAt, OwnedByFirstCharge, RunAt, LinesUnder, PriceOf, TaxAnInvoice;
    EveryInvoiceIsItsDocumentsPrice(engine, reference, start, steps);
    var w := Reach(engine, reference, start, steps);
    if key in w.invoices && key !in start.invoices {
      var row := w.invoices[key];
      var q := row.pricing;
      assert PricedFromItsDocuments(engine, key, row);
      var price := PriceOf(q.garage, q.period, key.payer, Some(q.documents)).value;
      var k :| q.period == PeriodAt(q.garage, k);
      TaxLinesAreNobodys(engine, price, q.chosen, a.id);
      if IdsApart(q.documents) && a in q.documents {
        TheRunPricesWhatItOwns(q.garage, k, q.documents, key.payer, a);
      }
      if l in row.issued && !l.kind.Tax? {
        PricedLinesAreNotOwned(q.garage, q.period, key.payer, q.documents, l);
      }
    }
  }

  lemma PricedLinesAreNotOwned(g: Garage, p: Period, payer: PayerId, items: seq<Agreement>, l: Line)
    requires WellFormed(g)
    ensures PriceOf(g, p, payer, Some(items)).Some? && l in PriceOf(g, p, payer, Some(items)).value ==>
              exists b :: b in items && b.payer == payer && l.agreement == Some(b.id) && !OwnedByFirstCharge(g, b, p)
  {
    hide OwnedByFirstCharge, WellFormed, NotOwned, SortedById, AllHomedHere, PayersLines, RunLines;
    if PriceOf(g, p, payer, Some(items)).Some? && l in PriceOf(g, p, payer, Some(items)).value {
      NotOwnedAre(g, items, p);
      SortingKeepsTheAgreements(NotOwned(g, items, p));
      EachLineHasItsAgreement(SortedById(NotOwned(g, items, p)), p, payer, l);
    }
  }

  /** Tax names no agreement, so it adds nothing under one. */
  lemma TaxLinesAreNobodys(engine: Engine, lines: seq<Line>, chosen: Option<TaxSet>, id: AgreementId)
    requires TaxAnInvoice(engine, lines, chosen).Ok?
    ensures var issued := TaxAnInvoice(engine, lines, chosen).value;
            LinesUnder(issued, id) == LinesUnder(lines, id)
            && forall l :: l in issued && !l.kind.Tax? ==> l in lines
  {
    hide AnsweredLines, SubtotalMinor, Span, LinesUnder;
    var tax := AnsweredLines(engine, chosen.value, SubtotalMinor(lines), chosen.value.rules, Span(lines));
    AnsweredLinesNameNobody(engine, chosen.value, SubtotalMinor(lines), chosen.value.rules, Span(lines), id);
    UnderBoth(lines, tax, id);
    assert LinesUnder(lines, id) + [] == LinesUnder(lines, id);
  }

  lemma {:induction false} AnsweredLinesNameNobody(engine: Engine, s: TaxSet, base: int, rules: seq<RuleId>,
                                                   span: Option<(Day, Day)>, id: AgreementId)
    ensures var tax := AnsweredLines(engine, s, base, rules, span);
            LinesUnder(tax, id) == [] && forall i :: 0 <= i < |tax| ==> tax[i].kind.Tax?
  {
    if rules != [] {
      var front, last := rules[..|rules| - 1], rules[|rules| - 1];
      AnsweredLinesNameNobody(engine, s, base, front, span, id);
      var before := AnsweredLines(engine, s, base, front, span);
      assert before + [] == before;
      if last in engine(s, base) {
        var line := TaxLine(last, engine(s, base)[last], span, None);
        UnderBoth(before, [line], id);
        assert [line][..0] == [];
        assert LinesUnder([line], id) == [];
      }
    }
  }
}
