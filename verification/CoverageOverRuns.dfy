/** The published register against the store's answer with nothing supposed of either: the register as the calls of
    `store/records.py` leave it from an empty store, the invoices as the runs of `billing_run.py` do. */
module CoverageOverRuns {
  import opened Calendar
  import opened Garages
  import opened Agreements
  import opened Taxes
  import opened Register
  import opened Coverage
  import opened CoverageAgrees
  import Ledger
  import BillingRuns
  import opened Options

  /** An invoice, as coverage reads it. */
  function BillOf(key: BillingRuns.PeriodKey, row: BillingRuns.Row): Bill {
    Bill(key.payer, key.garage, key.start, row.books.dueAt, row.books.paidAt.Some?)
  }

  /** The bills are the invoices of the billing store, in the order of `keys`: each of them and no other. */
  ghost predicate BillsOf(bills: seq<Bill>, keys: seq<BillingRuns.PeriodKey>,
                          invoices: map<BillingRuns.PeriodKey, BillingRuns.Row>)
  {
    && |bills| == |keys|
    && (forall key :: key in keys <==> key in invoices)
    && forall i :: 0 <= i < |keys| ==> keys[i] in invoices && bills[i] == BillOf(keys[i], invoices[keys[i]])
  }

  const NOTHING_ISSUED := BillingRuns.World(map[], map[])

  /** Every run works with a garage as the store holds it. */
  ghost predicate RunsUse(s: Store, steps: seq<BillingRuns.Step>) {
    forall step :: step in steps && step.Begin? ==>
                     step.garage.id in s.garages && step.garage == s.garages[step.garage.id]
  }

  /** A bill reads as paid exactly while its invoice's payments reach its total. */
  lemma BillsSayWhatIsCovered(engine: Engine, reference: BillingRuns.PeriodKey -> string, steps: seq<BillingRuns.Step>,
                              bills: seq<Bill>, keys: seq<BillingRuns.PeriodKey>, i: nat)
    requires i < |bills| && BillsOf(bills, keys, BillingRuns.Reach(engine, reference, NOTHING_ISSUED, steps).invoices)
    ensures var invoices := BillingRuns.Reach(engine, reference, NOTHING_ISSUED, steps).invoices;
            bills[i].paid <==> Ledger.IsCovered(invoices[keys[i]].books)
  {
    hide BillingRuns.Reach;
    BillingRuns.EveryInvoiceIsDerived(engine, reference, NOTHING_ISSUED, steps);
    assert Ledger.Derived(BillingRuns.Reach(engine, reference, NOTHING_ISSUED, steps).invoices[keys[i]].books);
  }

  lemma BillsFallDue(s: Store, engine: Engine, reference: BillingRuns.PeriodKey -> string, steps: seq<BillingRuns.Step>,
                     accounts: Accounts, keys: seq<BillingRuns.PeriodKey>)
    requires forall g :: g in s.garages ==> ZoneLaws(s.garages[g].zone)
    requires RunsUse(s, steps)
    requires BillsOf(accounts.bills, keys, BillingRuns.Reach(engine, reference, NOTHING_ISSUED, steps).invoices)
    ensures DueAtTheStart(s, accounts)
  {
    hide BillingRuns.Reach, ZoneLaws;
    var clock := (g: GarageId) =>
      if g in s.garages then s.garages[g].zone else Zone(i => LocalTime(i, 0), d => d);
    BillingRuns.InvoicesFallDueAsTheirPeriodStarts(engine, reference, clock, NOTHING_ISSUED, steps);
    forall i | 0 <= i < |keys| && keys[i].garage in s.garages
      ensures accounts.bills[i].dueAt == s.garages[keys[i].garage].zone.dayStart(keys[i].start)
    {
      assert clock(keys[i].garage) == s.garages[keys[i].garage].zone;
    }
  }

  /** After any calls on an empty register and any billing runs, payments and adjustments on an empty billing store,
      for every vehicle and instant: the store refuses nothing it should answer, and a reader of the published
      register gives its answer and reason, but for access hours. */
  lemma PublishedRegisterAfterRuns(calls: seq<Call>, engine: Engine, reference: BillingRuns.PeriodKey -> string,
                                   steps: seq<BillingRuns.Step>, accounts: Accounts, keys: seq<BillingRuns.PeriodKey>,
                                   garage: GarageId, identity: string, at: Instant, enteredAt: Option<Instant>)
    requires forall g :: g in Run(EMPTY, calls).garages ==> ZoneLaws(Run(EMPTY, calls).garages[g].zone)
    requires RunsUse(Run(EMPTY, calls), steps)
    requires BillsOf(accounts.bills, keys, BillingRuns.Reach(engine, reference, NOTHING_ISSUED, steps).invoices)
    requires garage in Run(EMPTY, calls).garages && FormAt(Run(EMPTY, calls).garages, garage, identity).Some?
    ensures ReadersAgree(Run(EMPTY, calls), accounts, garage, identity, at, enteredAt)
  {
    hide Run, BillingRuns.Reach, FormAt, RunsUse, BillsOf, DueAtTheStart, ReadersAgree, ZoneLaws;
    EveryReachableStoreIsKept(calls);
    BillsFallDue(Run(EMPTY, calls), engine, reference, steps, accounts, keys);
    PublishedRegisterAgrees(Run(EMPTY, calls), accounts, garage, identity, at, enteredAt);
  }
}
