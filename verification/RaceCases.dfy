/** Two runs of `Races` from an empty store, each of two transactions at once, after which the register is not as its
    calls one at a time would keep it. `Races.WhenAWriteKeeps` says exactly when a write loses something. */
module RaceCases {
  import opened Calendar
  import opened Garages
  import opened Agreements
  import opened Register
  import opened FeeCases
  import opened CoverageCases
  import opened Races
  import opened Options

  const SPOT := Place(1, PLATE)

  // ---------------------------------------------------------------- one row, two takers

  /** A third payer's agreement for the plate. */
  function TakingToo(): Agreement {
    Version(1, [], None).(id := 3, payer := 3)
  }

  function FirstCalls(): seq<Call> {
    [AddGarage(FirstOfTheMonth())] + [SaveVersion(1, Leaving(), [], 1)]
  }

  function Held(): Store {
    Store(map[1 := FirstOfTheMonth()], [Leaving()], map[SPOT := 1])
  }

  function BothTake(): seq<Step> {
    [Begin(1, SaveVersion(1, Taking(), [], 10))] + [Begin(2, SaveVersion(1, TakingToo(), [], 10))]
    + [Write(1)] + [Write(2)]
  }

  lemma TheListsAreAccepted()
    ensures ListsThePlate(Leaving()) && ListsThePlate(Taking()) && ListsThePlate(TakingToo())
  {
    BothAreAccepted();
    VersionsAreAccepted(1, [], None);
    assert TakingToo().pauses == Version(1, [], None).pauses;
  }

  lemma TheFirstHolds()
    ensures Run(EMPTY, FirstCalls()) == Held()
  {
    hide Run, Save, Accepted;
    var g := FirstOfTheMonth();
    var bare := Store(map[1 := g], [], map[]);
    TheListsAreAccepted();
    NothingRun();
    RunOneMore(EMPTY, [], AddGarage(g));
    assert [] + [AddGarage(g)] == [AddGarage(g)] && bare.versions + [Leaving()] == [Leaving()];
    RunOneMore(EMPTY, [AddGarage(g)], SaveVersion(1, Leaving(), [], 1));
    SavingOnePlate(bare, Leaving(), 1);
  }

  function TakingItOver(a: Agreement): Plan {
    Saving(1, a, [], 10, map[SPOT := 0])
  }

  /** Each of the two may take the plate over, while the first holder has it. */
  lemma PlansToTake(w: World, a: Agreement)
    requires w.store == Held() && w.ids == map[SPOT := 0] && (a == Taking() || a == TakingToo())
    ensures Planned(w, SaveVersion(1, a, [], 10)) == Some(TakingItOver(a))
  {
    hide Save, Accepted, HomeFirst, Places;
    TheListsAreAccepted();
    TheDayHasCome(Held());
    assert Latest([Leaving()], a.id).None? && Takeable(Held(), a.id, SPOT, 10) by {
      assert [Leaving()][..0] == [];
    }
    SavingOnePlate(Held(), a, 10);
    ThePlateAlone(Held().garages, a);
    assert Taken(w, a.id, {SPOT}) == map[SPOT := 0];
  }

  /** The row is updated by its id, whoever has it by now. */
  lemma WritesTheRow(w: World, a: Agreement)
    requires ListsThePlate(a) && 1 in w.store.garages && w.store.garages[1].rule.Exact?
    requires w.ids == map[SPOT := 0] && w.store.rows.Keys == {SPOT}
    ensures Commit(w, TakingItOver(a)) == Ok(w.store.(versions := w.store.versions + [a], rows := map[SPOT := a.id]))
  {
    hide Accepted, HomeFirst, Places;
    ThePlateAlone(w.store.garages, a);
    assert Reaching(w, {SPOT}, map[SPOT := 0]) == {SPOT};
    assert Claim(KeptOf(w.store.rows, a, {SPOT}), a.id, {SPOT}) == map[SPOT := a.id];
  }

  lemma ReachOneMore(w: World, steps: seq<Step>, step: Step)
    ensures Reach(w, steps + [step]) == Do(Reach(w, steps), step)
  {
    assert (steps + [step])[..|steps|] == steps;
  }

  /** Both have planned; then the first of them has written. */
  function BothPlanned(): World {
    World(Held(), map[SPOT := 0], 1, map[1 := TakingItOver(Taking())][2 := TakingItOver(TakingToo())])
  }

  function OneWrote(): World {
    World(Held().(versions := [Leaving()] + [Taking()], rows := map[SPOT := 2]), map[SPOT := 0], 2,
          map[2 := TakingItOver(TakingToo())])
  }

  function TakenTwice(): Store {
    Held().(versions := [Leaving()] + [Taking()] + [TakingToo()], rows := map[SPOT := 3])
  }

  lemma TheyPlan()
    ensures Reach(Opened(Held()), BothTake()[..2]) == BothPlanned()
  {
    hide Reach, Planned, TakingItOver, Leaving, Taking, TakingToo;
    var w := Opened(Held());
    var first, second := Begin(1, SaveVersion(1, Taking(), [], 10)), Begin(2, SaveVersion(1, TakingToo(), [], 10));
    assert BothTake()[..2] == [first] + [second] && w.ids == map[SPOT := 0];
    NothingReached(w);
    ReachOneMore(w, [], first);
    assert [] + [first] == [first];
    ReachOneMore(w, [first], second);
    PlansToTake(w, Taking());
    var planned := w.(open := map[1 := TakingItOver(Taking())]);
    assert Do(w, first) == planned by { assert w.open[1 := TakingItOver(Taking())] == planned.open; }
    PlansToTake(planned, TakingToo());
    PlanIds();
    assert !Waits(planned.open, second.call);
  }

  lemma NothingReached(w: World)
    ensures Reach(w, []) == w
  {}

  lemma PlanIds()
    ensures TakingItOver(Taking()).Saving? && TakingItOver(Taking()).agreement.id == 2 && TakingToo().id == 3
    ensures TakingItOver(TakingToo()).Saving? && Taking().id == 2
  {}

  lemma HeldIs()
    ensures 1 in Held().garages && Held().garages[1].rule.Exact? && Held().rows == map[SPOT := 1]
    ensures Held().versions == [Leaving()]
  {}

  lemma TheFirstWrites()
    ensures Do(BothPlanned(), Write(1)) == OneWrote()
  {
    hide Commit, Leaving, Taking, TakingToo, TakingItOver, Held, ListsThePlate;
    TheListsAreAccepted();
    PlanIds();
    HeldIs();
    WritesTheRow(BothPlanned(), Taking());
    var after := Do(BothPlanned(), Write(1));
    assert after.ids == map[SPOT := 0] && after.open == map[2 := TakingItOver(TakingToo())];
  }

  lemma TheSecondWrites()
    ensures Do(OneWrote(), Write(2)).store == TakenTwice()
  {
    hide Commit, Leaving, Taking, TakingToo, TakingItOver, Held, ListsThePlate;
    TheListsAreAccepted();
    HeldIs();
    PlanIds();
    WritesTheRow(OneWrote(), TakingToo());
  }

  /** Two agreements for a plate whose holder is cancelled, saved at once: both plan to take the row, and the second
      write takes it from the first, whose active list is left without its one plate. */
  lemma ARowTakenTwice()
    ensures var s, ended := Run(EMPTY, FirstCalls()), Reach(Opened(Run(EMPTY, FirstCalls())), BothTake()).store;
            Kept(s) && ended.rows == map[SPOT := 3] && !Kept(ended)
            && IsActiveHere(ended, 2) && SPOT in Listed(ended.garages, Latest(ended.versions, 2).value)
  {
    hide Run, Reach, Do, Kept, Latest, Places, HomeFirst, FirstCalls, Accepted;
    EveryReachableStoreIsKept(FirstCalls());
    TheFirstHolds();
    TheyPlan();
    TheFirstWrites();
    TheSecondWrites();
    var w, steps := Opened(Held()), BothTake();
    assert steps[..2] + [Write(1)] == steps[..3] && steps[..3] + [Write(2)] == steps;
    ReachOneMore(w, steps[..2], Write(1));
    ReachOneMore(w, steps[..3], Write(2));
    TheListsAreAccepted();
    ThePlateAlone(TakenTwice().garages, Taking());
    LatestOfBoth();
    KeptIsMore(TakenTwice());
    assert IsActiveHere(TakenTwice(), 2);
    assert SPOT in Listed(TakenTwice().garages, Latest(TakenTwice().versions, 2).value);
    assert !Holds(TakenTwice().rows, 2, SPOT);
    assert !HasItsList(TakenTwice(), 2);
  }

  lemma LatestOfBoth()
    ensures Latest(TakenTwice().versions, 2) == Some(Taking())
  {
    assert [Leaving()][..0] == [];
    LatestAfter([Leaving()], Taking(), 2);
    LatestAfter([Leaving()] + [Taking()], TakingToo(), 3);
    LatestAfter([Leaving()], Taking(), 3);
    LatestAfter([Leaving()] + [Taking()], TakingToo(), 2);
  }

  // ---------------------------------------------------------------- a garage dropped under an open door

  const HIRED := 5
  const ELSEWHERE := Place(2, PLATE)

  /** Registered from outside, at the garages given. */
  function Hired(version: int, covered: seq<GarageId>): Agreement {
    Version(version, [], None).(id := HIRED, payer := 5, vehicles := [], registrar := Outside, covered := covered)
  }

  function TwoGarages(): map<GarageId, Garage> {
    map[1 := FirstOfTheMonth()][2 := FirstOfTheMonth().(id := 2)]
  }

  function HireCalls(): seq<Call> {
    [AddGarage(FirstOfTheMonth())] + [AddGarage(FirstOfTheMonth().(id := 2))]
    + [SaveVersion(1, Hired(1, [1, 2]), [], 1)]
  }

  function HiredAtBoth(): Store {
    Store(TwoGarages(), [Hired(1, [1, 2])], map[])
  }

  function DropsOne(): seq<Step> {
    [Begin(1, RegisterAtTheDoor(HIRED, PLATE, 10))] + [Begin(2, SaveVersion(1, Hired(2, [1]), [], 10))]
    + [Write(2)] + [Write(1)]
  }

  lemma HiredIsAccepted(version: int, covered: seq<GarageId>)
    requires version >= 1 && (covered == [1, 2] || covered == [1])
    ensures Accepted(Hired(version, covered))
  {
    VersionsAreAccepted(version, [], None);
    assert Hired(version, covered).pauses == Version(version, [], None).pauses;
  }

  lemma HireFirst()
    ensures Run(EMPTY, HireCalls()) == HiredAtBoth()
  {
    hide Run, Accepted, HomeFirst, Latest;
    var g, h, a := FirstOfTheMonth(), FirstOfTheMonth().(id := 2), Hired(1, [1, 2]);
    HiredIsAccepted(1, [1, 2]);
    NothingRun();
    RunOneMore(EMPTY, [], AddGarage(g));
    assert [] + [AddGarage(g)] == [AddGarage(g)];
    RunOneMore(EMPTY, [AddGarage(g)], AddGarage(h));
    var bare := Store(TwoGarages(), [], map[]);
    assert Run(EMPTY, [AddGarage(g)] + [AddGarage(h)]) == bare;
    RunOneMore(EMPTY, [AddGarage(g)] + [AddGarage(h)], SaveVersion(1, a, [], 1));
    NoneYet(HIRED);
    assert ReleaseDropped(map[], HIRED, HomeFirst(a)) == map[] && [] + [a] == [a];
    assert Save(bare, 1, a, [], 1) == Ok(HiredAtBoth());
  }

  lemma NoneYet(id: AgreementId)
    ensures Latest([], id).None?
  {}

  lemma HiredIsLatest()
    ensures Latest([Hired(1, [1, 2])], HIRED) == Some(Hired(1, [1, 2]))
    ensures Latest([Hired(1, [1, 2])] + [Hired(2, [1])], HIRED) == Some(Hired(2, [1]))
  {
    assert [Hired(1, [1, 2])][..0] == [];
    LatestAfter([Hired(1, [1, 2])], Hired(2, [1]), HIRED);
  }

  lemma BothFormed()
    ensures FormAt(TwoGarages(), 1, PLATE) == Some(PLATE) && FormAt(TwoGarages(), 2, PLATE) == Some(PLATE)
    ensures HomeFirst(Hired(1, [1, 2])) == [1, 2]
    ensures Places(TwoGarages(), [1, 2], [PLATE]) == {SPOT, ELSEWHERE}
  {
    assert PLATE[0] == 'A' && !IsSpace(PLATE[0]);
    assert [1, 2][..1] == [1] && [1][..0] == [] && Without([1], 1) == [];
    forall p ensures p in Places(TwoGarages(), [1, 2], [PLATE]) <==> p in {SPOT, ELSEWHERE} {
      PlacesAre(TwoGarages(), [1, 2], [PLATE], p);
      assert Names(TwoGarages(), [PLATE], p) <==> FormAt(TwoGarages(), p.garage, [PLATE][0]) == Some(p.form);
    }
  }

  function AtTheDoor(): Plan {
    Registering(HIRED, PLATE, 10, [1, 2], map[])
  }

  function Dropping(): Plan {
    Saving(1, Hired(2, [1]), [], 10, map[])
  }

  lemma DoorPlans(w: World)
    requires w.store == HiredAtBoth()
    ensures Planned(w, RegisterAtTheDoor(HIRED, PLATE, 10)) == Some(AtTheDoor())
  {
    hide Places, Latest, HomeFirst, FormAt, Hired, PlanRefusal;
    HiredIsLatest();
    BothFormed();
    IsHired();
    PlanPasses(HiredAtBoth(), HIRED, [1, 2], [PLATE], 10);
    assert Taken(w, HIRED, {SPOT, ELSEWHERE}) == map[];
  }

  lemma IsHired()
    ensures var a, b := Hired(1, [1, 2]), Hired(2, [1]);
            a.registrar.Outside? && b.registrar.Outside? && a.id == HIRED && b.id == HIRED && b.covered == [1]
            && RefusalOfVersion(a, b, []).None? && a.garage == 1 && b.garage == 1
  {}

  lemma DropPlans(w: World)
    requires w.store == HiredAtBoth()
    ensures Planned(w, SaveVersion(1, Hired(2, [1]), [], 10)) == Some(Dropping())
  {
    hide Latest, HomeFirst, Hired, Accepted, RefusalOfVersion, Places;
    var a := Hired(2, [1]);
    HiredIsLatest();
    HiredIsAccepted(2, [1]);
    IsHired();
    NoTextsNoPlaces(w.store.garages, a);
    assert Save(w.store, 1, a, [], 10).Ok?;
    assert Taken(w, HIRED, {}) == map[];
  }

  /** The door and the save have planned; then the save has written. */
  function DoorAndDrop(): World {
    World(HiredAtBoth(), map[], 1, map[1 := AtTheDoor()][2 := Dropping()])
  }

  function Dropped(): World {
    World(HiredAtBoth().(versions := [Hired(1, [1, 2])] + [Hired(2, [1])]), map[], 2, map[1 := AtTheDoor()])
  }

  lemma DoorAndDropPlan()
    ensures Reach(Opened(HiredAtBoth()), DropsOne()[..2]) == DoorAndDrop()
  {
    hide Reach, Planned, HiredAtBoth, Hired, AtTheDoor, Dropping;
    var w := Opened(HiredAtBoth());
    var door, drop := Begin(1, RegisterAtTheDoor(HIRED, PLATE, 10)), Begin(2, SaveVersion(1, Hired(2, [1]), [], 10));
    assert DropsOne()[..2] == [door] + [drop];
    assert w == World(HiredAtBoth(), map[], 1, map[]) by { NoRowsYet(); }
    NothingReached(w);
    ReachOneMore(w, [], door);
    assert [] + [door] == [door];
    ReachOneMore(w, [door], drop);
    DoorPlans(w);
    var planned := w.(open := map[1 := AtTheDoor()]);
    assert Do(w, door) == planned by { assert w.open[1 := AtTheDoor()] == planned.open; }
    DropPlans(planned);
    assert !Waits(planned.open, drop.call) by { ADoorIsNoSave(); }
  }

  lemma NoRowsYet()
    ensures HiredAtBoth().rows == map[]
  {}

  lemma ADoorIsNoSave()
    ensures AtTheDoor().Registering?
  {}

  lemma DropWrites()
    ensures Do(DoorAndDrop(), Write(2)) == Dropped()
  {
    hide Places, HomeFirst, Hired, Accepted;
    var w := DoorAndDrop();
    var a := Hired(2, [1]);
    HiredIsAccepted(2, [1]);
    IsHired();
    NoTextsNoPlaces(w.store.garages, a);
    ReachingNone(w, map[]);
    assert Claim(KeptOf(map[], a, {}), HIRED, {}) == map[];
    assert w.open - {2} == map[1 := AtTheDoor()];
  }

  lemma DoorWrites()
    ensures Do(Dropped(), Write(1)).store == Dropped().store.(rows := map[SPOT := HIRED, ELSEWHERE := HIRED])
  {
    hide Places, HomeFirst, Hired;
    BothFormed();
    assert Reaching(Dropped(), {SPOT, ELSEWHERE}, map[]) == {SPOT, ELSEWHERE};
    assert Claim(map[], HIRED, {SPOT, ELSEWHERE}) == map[SPOT := HIRED, ELSEWHERE := HIRED];
  }

  /** A plate is registered at the door while a save drops one of its agreement's garages: the door writes last, and
      at the dropped garage too. */
  lemma ADoorBehindADrop()
    ensures var s, ended := Run(EMPTY, HireCalls()), Reach(Opened(Run(EMPTY, HireCalls())), DropsOne()).store;
            Kept(s) && ended.rows == map[SPOT := HIRED, ELSEWHERE := HIRED] && !Kept(ended)
            && Latest(ended.versions, HIRED) == Some(Hired(2, [1])) && 2 !in Hired(2, [1]).covered
  {
    hide Run, Reach, Do, Kept, Latest, HireCalls, Hired, AtTheDoor, Dropping;
    EveryReachableStoreIsKept(HireCalls());
    HireFirst();
    DoorAndDropPlan();
    DropWrites();
    DoorWrites();
    var w, steps := Opened(HiredAtBoth()), DropsOne();
    assert steps[..2] + [Write(2)] == steps[..3] && steps[..3] + [Write(1)] == steps;
    ReachOneMore(w, steps[..2], Write(2));
    ReachOneMore(w, steps[..3], Write(1));
    HiredIsLatest();
    IsHired();
    var ended := Do(Dropped(), Write(1)).store;
    KeptIsMore(ended);
    assert ELSEWHERE in ended.rows && !AtACoveredGarage(ended, ELSEWHERE);
  }
}
