/** A run of the register's calls, from an empty store, that ends with two answers to one coverage question: the
    store's of `entitlement_store.py` and the documents' of `entitlement.py`. */
module CoverageCases {
  import opened Calendar
  import opened Garages
  import opened Agreements
  import opened Register
  import opened Coverage
  import opened CoverageAgrees
  import opened FeeCases
  import opened Options

  const PLATE := "A1"

  /** Cancelled from day 5, and still naming its plate. */
  function Leaving(): Agreement {
    Version(1, [], Some(5))
  }

  /** Another payer's agreement for the same plate. */
  function Taking(): Agreement {
    Version(1, [], None).(id := 2, payer := 2)
  }

  function TakeOver(): seq<Call> {
    [AddGarage(FirstOfTheMonth())] + [SaveVersion(1, Leaving(), [], 1)] + [SaveVersion(1, Taking(), [], 10)]
  }

  /** The store with both versions saved, and the plate's row with the second. */
  function TakenOver(): Store {
    Store(map[1 := FirstOfTheMonth()], [Leaving()] + [Taking()], map[Place(1, PLATE) := 2])
  }

  lemma BothAreAccepted()
    ensures Accepted(Leaving()) && Accepted(Taking())
  {
    VersionsAreAccepted(1, [], Some(5));
    VersionsAreAccepted(1, [], None);
    assert Taking().pauses == Version(1, [], None).pauses;
  }

  /** A list of the one plate, at garage 1. */
  predicate ListsThePlate(a: Agreement) {
    Accepted(a) && a.garage == 1 && a.covered == [1] && a.vehicles == [PLATE] && a.registrar.ThisModule?
  }

  lemma ThePlateAlone(garages: map<GarageId, Garage>, a: Agreement)
    requires ListsThePlate(a) && 1 in garages && garages[1].rule.Exact?
    ensures HomeFirst(a) == [1] && FormAt(garages, 1, PLATE) == Some(PLATE)
    ensures Places(garages, HomeFirst(a), a.vehicles) == {Place(1, PLATE)}
  {
    hide Accepted, Places;
    assert [1][..0] == [] && Without([1][..0], 1) == [];
    assert PLATE[0] == 'A' && !IsSpace(PLATE[0]);
    forall p ensures p in Places(garages, [1], [PLATE]) <==> p == Place(1, PLATE) {
      PlacesAre(garages, [1], [PLATE], p);
      assert Names(garages, [PLATE], p) <==> FormAt(garages, p.garage, [PLATE][0]) == Some(p.form);
    }
  }

  /** A first version of the list, where the plate is free to take. */
  lemma SavingOnePlate(s: Store, a: Agreement, now: Instant)
    requires ListsThePlate(a) && Latest(s.versions, a.id).None? && 1 in s.garages && s.garages[1].rule.Exact?
    requires Takeable(s, a.id, Place(1, PLATE), now)
    requires forall p :: p in s.rows ==> p == Place(1, PLATE)
    ensures Save(s, 1, a, [], now)
            == Ok(s.(versions := s.versions + [a], rows := map[Place(1, PLATE) := a.id]))
  {
    hide Accepted, Takeable, Latest, PlanRefusal, Places, FormAt;
    ThePlateAlone(s.garages, a);
    PlanPasses(s, a.id, [1], [PLATE], now);
    assert InStep(s.rows, a.id, {Place(1, PLATE)}) == map[Place(1, PLATE) := a.id];
  }

  lemma RunOneMore(s: Store, calls: seq<Call>, c: Call)
    ensures Run(s, calls + [c]) == After(Run(s, calls), c)
  {
    assert (calls + [c])[..|calls|] == calls;
  }

  lemma TheRunTakesItOver()
    ensures Run(EMPTY, TakeOver()) == TakenOver()
  {
    hide Run, Save, Accepted;
    var g := FirstOfTheMonth();
    var bare := Store(map[1 := g], [], map[]);
    var held := Store(map[1 := g], [Leaving()], map[Place(1, PLATE) := 1]);
    BothAreAccepted();
    NothingRun();
    RunOneMore(EMPTY, [], AddGarage(g));
    assert [] + [AddGarage(g)] == [AddGarage(g)] && bare.versions + [Leaving()] == [Leaving()];
    RunOneMore(EMPTY, [AddGarage(g)], SaveVersion(1, Leaving(), [], 1));
    SavingOnePlate(bare, Leaving(), 1);
    RunOneMore(EMPTY, [AddGarage(g)] + [SaveVersion(1, Leaving(), [], 1)], SaveVersion(1, Taking(), [], 10));
    TheDayHasCome(held);
    SavingOnePlate(held, Taking(), 10);
  }

  lemma NothingRun()
    ensures Run(EMPTY, []) == EMPTY
  {}

  lemma TheDayHasCome(held: Store)
    requires held == Store(map[1 := FirstOfTheMonth()], [Leaving()], map[Place(1, PLATE) := 1])
    ensures Latest(held.versions, 1) == Some(Leaving()) && Latest(held.versions, 2).None?
    ensures Takeable(held, 2, Place(1, PLATE), 10)
  {
    assert [Leaving()][..0] == [];
  }

  lemma BothClaimThePlate()
    ensures var s, p := TakenOver(), Place(1, PLATE);
            Latest(s.versions, 1) == Some(Leaving()) && Latest(s.versions, 2) == Some(Taking())
            && Claims(s, 1, p) && !Holds(s.rows, 1, p) && Claims(s, 2, p)
            && FormAt(s.garages, 1, PLATE) == Some(PLATE)
  {
    var s, p := TakenOver(), Place(1, PLATE);
    LatestAfter([Leaving()], Taking(), 1);
    LatestAfter([Leaving()], Taking(), 2);
    assert [Leaving()][..0] == [];
    assert PLATE[0] == 'A' && !IsSpace(PLATE[0]);
    assert FormAt(s.garages, 1, [PLATE][0]) == Some(PLATE);
  }

  /** The plate's first agreement was cancelled as of day 5 and a second has taken it over on day 10. The store
      answers from the row: covered by the second. Asked of every document, the first one's list still names the
      plate, and the call refuses, naming two agreements. */
  lemma ATakenOverPlate()
    ensures var s, none := Run(EMPTY, TakeOver()), Accounts([], []);
            Kept(s) && s == TakenOver() && StaleClaim(s, Place(1, PLATE)) && States(map[2 := [PLATE]], s, 1)
            && CoveredFromStore(s, none, 1, PLATE, 10, None) == Ok(Covered(1, Cited(2, 1), false))
            && PureCall(s, none, Place(1, PLATE), PLATE, 10, None, map[2 := [PLATE]]) == Refused(TwoAgreements)
  {
    hide Run, TakeOver, Kept, Claims, FormAt, Latest, Mine, CoveredFromStore, FirstSeen;
    var s, p, none := TakenOver(), Place(1, PLATE), Accounts([], []);
    TheRunTakesItOver();
    EveryReachableStoreIsKept(TakeOver());
    BothClaimThePlate();
    StoreCallJudgesTheHolder(s, none, 1, PLATE, 10, None);
    var mine := PureCallFinds(s, p, PLATE, map[2 := [PLATE]]);
    var i :| 0 <= i < |mine| && mine[i].id == 1;
    var j :| 0 <= j < |mine| && mine[j].id == 2;
    assert |mine| > 1;
  }
}
