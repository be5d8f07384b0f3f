/** The calls of `store/records.py` as two transactions at once run them under READ COMMITTED: a call plans, by reading,
    and writes later, and other calls may write in between. A save holds its agreement's advisory lock throughout; a row
    to take over is remembered by its id; a place to insert at meets the table's UNIQUE only when written. */
module Races {
  import opened Calendar
  import opened Garages
  import opened Agreements
  import opened Cycle
  import opened Register
  import opened Options

  type TransactionId = int

  /** A row's id, so far as it tells the row from an earlier one at its place: how many writes went before the one
      that inserted it. Taking a row over changes neither its id nor its place. */
  type RowId = nat

  /** What a call has read and is about to write: among it the rows it will take over. */
  datatype Plan =
    | Saving(home: GarageId, agreement: Agreement, paid: seq<Period>, now: Instant, taken: map<Place, RowId>)
    | Registering(id: AgreementId, text: string, now: Instant, covered: seq<GarageId>, taken: map<Place, RowId>)
    | Releasing(id: AgreementId, text: string, named: Option<GarageId>, reached: seq<GarageId>)

  /** The committed store, each row's id, how many writes there were, and the transactions that have planned. */
  datatype World = World(store: Store, ids: map<Place, RowId>, writes: nat, open: map<TransactionId, Plan>)

  datatype Step =
    | Add(garage: Garage)
    | Begin(tx: TransactionId, call: Call)
    | Write(tx: TransactionId)
    | Abort(tx: TransactionId)

  // ---------------------------------------------------------------- planning

  function Listed(garages: map<GarageId, Garage>, a: Agreement): set<Place> {
    Places(garages, HomeFirst(a), a.vehicles)
  }

  /** Another agreement's rows among the places: `held` of `_plan_registrations`. */
  function Taken(w: World, id: AgreementId, places: set<Place>): map<Place, RowId> {
    map p | p in places && p in w.store.rows && w.store.rows[p] != id && p in w.ids :: w.ids[p]
  }

  /** A call that its reads do not refuse. Only a release can still be refused for want of a row. */
  ghost function Planned(w: World, c: Call): Option<Plan> {
    match c
    case AddGarage(_) => None
    case SaveVersion(home, a, paid, now) =>
      if Save(w.store, home, a, paid, now).Ok? then
        Some(Saving(home, a, paid, now, Taken(w, a.id, Listed(w.store.garages, a))))
      else None
    case RegisterAtTheDoor(id, text, now) =>
      if DoorRegister(w.store, id, text, now).Ok? then
        var covered := HomeFirst(Latest(w.store.versions, id).value);
        Some(Registering(id, text, now, covered, Taken(w, id, Places(w.store.garages, covered, [text]))))
      else None
    case ReleaseAtTheDoor(id, text, named) =>
      var answer := DoorRelease(w.store, id, text, named);
      if answer.Ok? || answer == Refused(NotRegistered) then
        Some(Releasing(id, text, named, Reached(Latest(w.store.versions, id).value, named)))
      else None
  }

  /** Another save of the agreement has its lock. */
  ghost predicate Waits(open: map<TransactionId, Plan>, c: Call) {
    c.SaveVersion? && exists t :: t in open && open[t].Saving? && open[t].agreement.id == c.agreement.id
  }

  // ---------------------------------------------------------------- writing

  /** A place that was free to insert at is now another agreement's: the UNIQUE refuses the row. */
  predicate Collides(w: World, id: AgreementId, places: set<Place>, taken: map<Place, RowId>) {
    exists p :: p in places && p !in taken && p in w.store.rows && w.store.rows[p] != id
  }

  predicate Stands(w: World, p: Place, row: RowId) {
    p in w.store.rows && p in w.ids && w.ids[p] == row
  }

  /** Where the writes find a row to update or a place to insert at. An update of a row that is gone finds none. */
  function Reaching(w: World, places: set<Place>, taken: map<Place, RowId>): set<Place> {
    set p | p in places && (p in taken ==> Stands(w, p, taken[p]))
  }

  /** What a version's save leaves of the agreement's own rows, before its list is written. */
  function KeptOf(rows: map<Place, AgreementId>, a: Agreement, places: set<Place>): map<Place, AgreementId> {
    if a.registrar.Outside? then ReleaseDropped(rows, a.id, HomeFirst(a))
    else map p | p in rows && (rows[p] == a.id ==> p in places) :: rows[p]
  }

  function Commit(w: World, plan: Plan): Saved {
    match plan
    case Saving(_, a, _, _, taken) =>
      var places := Listed(w.store.garages, a);
      if Collides(w, a.id, places, taken) then Refused(AlreadyRegistered)
      else Ok(w.store.(versions := w.store.versions + [a],
                       rows := Claim(KeptOf(w.store.rows, a, places), a.id, Reaching(w, places, taken))))
    case Registering(id, text, _, covered, taken) =>
      var places := Places(w.store.garages, covered, [text]);
      if Collides(w, id, places, taken) then Refused(AlreadyRegistered)
      else Ok(w.store.(rows := Claim(w.store.rows, id, Reaching(w, places, taken))))
    case Releasing(id, text, _, reached) =>
      var gone := Named(w.store, id, text, reached);
      if gone == {} then Refused(NotRegistered) else Ok(w.store.(rows := w.store.rows - gone))
  }

  function Committed(w: World, s: Store): World {
    w.(store := s, ids := map p | p in s.rows :: if p in w.ids then w.ids[p] else w.writes, writes := w.writes + 1)
  }

  ghost function Do(w: World, step: Step): World {
    match step
    case Add(g) => w.(store := After(w.store, AddGarage(g)))
    case Begin(tx, c) =>
      if tx in w.open || Waits(w.open, c) || Planned(w, c).None? then w
      else w.(open := w.open[tx := Planned(w, c).value])
    case Write(tx) =>
      if tx !in w.open then w
      else
        var ended := w.(open := w.open - {tx});
        if Commit(w, w.open[tx]).Ok? then Committed(ended, Commit(w, w.open[tx]).value) else ended
    case Abort(tx) => w.(open := w.open - {tx})
  }

  ghost function Reach(w: World, steps: seq<Step>): World {
    if steps == [] then w else Do(Reach(w, steps[..|steps| - 1]), steps[|steps| - 1])
  }

  /** No call under way. */
  function Opened(s: Store): World {
    World(s, map p | p in s.rows :: 0, 1, map[])
  }

  // ---------------------------------------------------------------- what survives

  predicate EverCovered(versions: seq<Agreement>, id: AgreementId, g: GarageId) {
    exists i :: 0 <= i < |versions| && versions[i].id == id && g in versions[i].covered
  }

  /** A row is in its garage's form, at a garage some version of its holder's covered, and for a self-registered
      holder on its latest list. */
  ghost predicate RowSurvives(s: Store, p: Place)
    requires p in s.rows
  {
    var l := Latest(s.versions, s.rows[p]);
    p.garage in s.garages && Canonical(s.garages[p.garage].rule, p.form)
    && l.Some? && EverCovered(s.versions, s.rows[p], p.garage)
    && (l.value.registrar.ThisModule? ==> p in Listed(s.garages, l.value))
  }

  ghost predicate ListSurvives(s: Store, id: AgreementId) {
    var l := Latest(s.versions, id);
    l.Some? && l.value.registrar.ThisModule? ==> ListFormed(s.garages, l.value)
  }

  /** What is left of `Register.Kept`. */
  ghost predicate Survives(s: Store) {
    InOrder(s.versions) && GaragesKnown(s)
    && (forall p :: p in s.rows ==> RowSurvives(s, p))
    && (forall id: AgreementId :: ListSurvives(s, id))
  }

  /** What a plan read that no other write can make untrue. */
  ghost predicate Standing(s: Store, plan: Plan) {
    match plan
    case Saving(home, a, paid, _, _) =>
      var newest := Latest(s.versions, a.id);
      Accepted(a) && home == a.garage && (newest.Some? ==> RefusalOfVersion(newest.value, a, paid).None?)
      && (forall g :: g in HomeFirst(a) ==> g in s.garages)
      && (a.registrar.ThisModule? ==> ListFormed(s.garages, a) && !ListsTwice(s.garages, a))
    case Registering(id, text, _, covered, _) =>
      IsOutside(s, id)
      && (forall g :: g in covered ==> EverCovered(s.versions, id, g) && FormAt(s.garages, g, text).Some?)
    case Releasing(id, text, _, reached) =>
      IsOutside(s, id) && (forall g :: g in reached ==> FormAt(s.garages, g, text).Some?)
  }

  predicate IsOutside(s: Store, id: AgreementId) {
    Latest(s.versions, id).Some? && Latest(s.versions, id).value.registrar.Outside?
  }

  ghost predicate OneSaveEach(open: map<TransactionId, Plan>) {
    forall t, u :: t in open && u in open && t != u && open[t].Saving? && open[u].Saving? ==>
                     open[t].agreement.id != open[u].agreement.id
  }

  ghost predicate Numbered(w: World) {
    w.ids.Keys == w.store.rows.Keys && forall p :: p in w.ids ==> w.ids[p] < w.writes
  }

  ghost predicate Sound(w: World) {
    Survives(w.store) && OneSaveEach(w.open) && Numbered(w) && forall t :: t in w.open ==> Standing(w.store, w.open[t])
  }

  lemma KeptSurvives(s: Store)
    requires Kept(s)
    ensures Survives(s)
  {
    hide Places, InOrder, Latest, Canonical, HomeFirst, ListFormed;
    forall p | p in s.rows ensures RowSurvives(s, p) {
      assert RowInStep(s, p);
      LatestEverCovered(s.versions, s.rows[p], p.garage);
    }
    forall id: AgreementId ensures ListSurvives(s, id) {
      assert ListHeld(s, id);
    }
  }

  lemma LatestEverCovered(versions: seq<Agreement>, id: AgreementId, g: GarageId)
    requires Latest(versions, id).Some? && g in Latest(versions, id).value.covered
    ensures EverCovered(versions, id, g)
  {
    hide Latest;
    var i :| 0 <= i < |versions| && versions[i] == Latest(versions, id).value;
  }

  lemma FormsOf(s: Store, id: AgreementId, covered: seq<GarageId>, texts: seq<string>, now: Instant)
    requires PlanRefusal(s, id, covered, texts, now).None?
    ensures forall g, j :: g in covered && 0 <= j < |texts| ==> FormAt(s.garages, g, texts[j]).Some?
  {
    hide FormAt, Places, Takeable, PlanRefusal;
    PlanPasses(s, id, covered, texts, now);
  }

  /** A call that its reads pass has read what cannot become untrue. */
  lemma PlannedStands(w: World, c: Call)
    requires Sound(w) && Planned(w, c).Some?
    ensures Standing(w.store, Planned(w, c).value)
  {
    hide Accepted, Places, PlanRefusal, RefusalOfVersion, InOrder, Latest, FormAt, HomeFirst, Ambiguous, Collides,
         Survives;
    match c {
      case SaveVersion(_, a, _, now) =>
        HomeIsCovered(a);
        HomeFirstKeeps(a);
        if a.registrar.ThisModule? {
          FormsOf(w.store, a.id, HomeFirst(a), a.vehicles, now);
        }
      case RegisterAtTheDoor(id, text, now) =>
        var l := Latest(w.store.versions, id).value;
        FormsOf(w.store, id, HomeFirst(l), [text], now);
        assert [text][0] == text;
        LatestIsHomeFirst(w.store, id);
        forall g | g in HomeFirst(l) ensures EverCovered(w.store.versions, id, g) {
          LatestEverCovered(w.store.versions, id, g);
        }
      case ReleaseAtTheDoor(id, text, named) =>
    }
  }

  lemma LatestIsHomeFirst(s: Store, id: AgreementId)
    requires Survives(s) && Latest(s.versions, id).Some?
    ensures var l := Latest(s.versions, id).value; forall g :: g in HomeFirst(l) <==> g in l.covered
  {
    LatestIsAccepted(s, id);
    HomeFirstKeeps(Latest(s.versions, id).value);
  }

  /** What a later store may differ in: more garages, more versions, rows. */
  ghost predicate Later(s: Store, after: Store) {
    && (forall g :: g in s.garages ==> g in after.garages && after.garages[g] == s.garages[g])
    && (forall id: AgreementId :: IsOutside(s, id) ==> IsOutside(after, id))
    && (forall id: AgreementId, g: GarageId :: EverCovered(s.versions, id, g) ==> EverCovered(after.versions, id, g))
  }

  lemma StillStanding(s: Store, after: Store, plan: Plan)
    requires Standing(s, plan) && Later(s, after)
    requires plan.Saving? ==> Latest(after.versions, plan.agreement.id) == Latest(s.versions, plan.agreement.id)
    ensures Standing(after, plan)
  {
    hide Accepted, RefusalOfVersion, Latest, EverCovered, FormAt, Without, IsOutside;
    forall g, text: string | g in s.garages || FormAt(s.garages, g, text).Some?
      ensures FormAt(after.garages, g, text) == FormAt(s.garages, g, text)
    {
      FormsStay(s, after, g, text);
    }
    if plan.Saving? {
      var a := plan.agreement;
      assert HomeFirst(a)[0] == a.garage;
      assert ListsTwice(after.garages, a) == ListsTwice(s.garages, a);
      assert ListFormed(s.garages, a) ==> ListFormed(after.garages, a);
    }
  }

  lemma FormsStay(s: Store, after: Store, g: GarageId, text: string)
    requires Later(s, after) && (g in s.garages || FormAt(s.garages, g, text).Some?)
    ensures FormAt(after.garages, g, text) == FormAt(s.garages, g, text)
  {
    hide EverCovered, Normalise;
  }

  lemma VersionsOnlyGrow(versions: seq<Agreement>, a: Agreement, id: AgreementId, g: GarageId)
    ensures EverCovered(versions + [a], id, g) <==> EverCovered(versions, id, g) || (id == a.id && g in a.covered)
  {
    if EverCovered(versions, id, g) {
      var i :| 0 <= i < |versions| && versions[i].id == id && g in versions[i].covered;
      assert (versions + [a])[i] == versions[i];
    }
    assert (versions + [a])[|versions|] == a;
  }

  /** A version saved: every later reader of its id sees it, and every other id as before. */
  lemma AfterASave(s: Store, after: Store, a: Agreement)
    requires InOrder(s.versions) && Accepted(a) && Supersedes(s.versions, a)
    requires after.garages == s.garages && after.versions == s.versions + [a]
    ensures Later(s, after) && InOrder(after.versions)
    ensures forall id: AgreementId :: Latest(after.versions, id)
                                      == if id == a.id then Some(a) else Latest(s.versions, id)
  {
    hide Accepted, InOrder, Latest, EverCovered;
    SavingKeepsOrder(s.versions, a);
    forall id: AgreementId
      ensures Latest(after.versions, id) == if id == a.id then Some(a) else Latest(s.versions, id)
    {
      LatestAfter(s.versions, a, id);
    }
    forall id: AgreementId, g: GarageId | EverCovered(s.versions, id, g) ensures EverCovered(after.versions, id, g) {
      VersionsOnlyGrow(s.versions, a, id, g);
    }
  }

  lemma ListedAre(s: Store, a: Agreement, p: Place)
    requires a.garage in a.covered && p in Listed(s.garages, a)
    ensures p.garage in a.covered && p.garage in s.garages && Canonical(s.garages[p.garage].rule, p.form)
  {
    hide Places, Canonical;
    PlacesAre(s.garages, HomeFirst(a), a.vehicles, p);
    PlacesAreCanonical(s.garages, HomeFirst(a), a.vehicles, p);
    HomeFirstKeeps(a);
  }

  lemma StandingSupersedes(s: Store, plan: Plan)
    requires plan.Saving? && Standing(s, plan)
    ensures Accepted(plan.agreement) && Supersedes(s.versions, plan.agreement)
  {
    hide Accepted, RefusalOfVersion, Latest;
    AllowedSupersedes(s.versions, plan.agreement, plan.paid);
  }

  lemma SavingSurvives(w: World, plan: Plan)
    requires Sound(w) && plan.Saving? && Standing(w.store, plan) && Commit(w, plan).Ok?
    ensures Survives(Commit(w, plan).value) && Later(w.store, Commit(w, plan).value)
  {
    hide Accepted, Places, RefusalOfVersion, InOrder, Latest, Canonical, HomeFirst, ListFormed, EverCovered, Listed,
         Reaching, Collides;
    var s, after, a := w.store, Commit(w, plan).value, plan.agreement;
    StandingSupersedes(s, plan);
    AfterASave(s, after, a);
    HomeIsCovered(a);
    HomeFirstKeeps(a);
    forall p | p in after.rows ensures RowSurvives(after, p) {
      VersionsOnlyGrow(s.versions, a, after.rows[p], p.garage);
      SavedRow(w, plan, p);
      assert p in s.rows && s.rows[p] == after.rows[p] ==> RowSurvives(s, p);
      if p in Listed(s.garages, a) {
        ListedAre(s, a, p);
      }
    }
    forall id: AgreementId ensures ListSurvives(after, id) {
      assert ListSurvives(s, id);
    }
  }

  /** A row after a save is one before it, by the same holder, or on the version's list. */
  lemma SavedRow(w: World, plan: Plan, p: Place)
    requires plan.Saving? && Commit(w, plan).Ok? && p in Commit(w, plan).value.rows
    ensures var a, after := plan.agreement, Commit(w, plan).value;
            (p in w.store.rows && w.store.rows[p] == after.rows[p])
            || (after.rows[p] == a.id && p in Listed(w.store.garages, a))
    ensures var a, after := plan.agreement, Commit(w, plan).value;
            after.rows[p] == a.id ==>
              p in Listed(w.store.garages, a) || (a.registrar.Outside? && p.garage in HomeFirst(a))
  {
    hide Listed, HomeFirst, Collides;
  }

  lemma RegisteringSurvives(w: World, plan: Plan)
    requires Sound(w) && plan.Registering? && Standing(w.store, plan) && Commit(w, plan).Ok?
    ensures Survives(Commit(w, plan).value) && Later(w.store, Commit(w, plan).value)
  {
    hide Places, InOrder, Latest, Canonical, HomeFirst, ListFormed, EverCovered, Listed, Collides;
    var s, after := w.store, Commit(w, plan).value;
    forall p | p in after.rows ensures RowSurvives(after, p) {
      assert p in s.rows ==> RowSurvives(s, p);
      if p in Places(s.garages, plan.covered, [plan.text]) {
        PlacesAre(s.garages, plan.covered, [plan.text], p);
        PlacesAreCanonical(s.garages, plan.covered, [plan.text], p);
      }
    }
    forall id: AgreementId ensures ListSurvives(after, id) {
      assert ListSurvives(s, id);
    }
  }

  lemma ReleasingSurvives(w: World, plan: Plan)
    requires Sound(w) && plan.Releasing?
    ensures Commit(w, plan).Ok? ==> Survives(Commit(w, plan).value) && Later(w.store, Commit(w, plan).value)
  {
    hide Places, InOrder, Latest, Canonical, HomeFirst, ListFormed, EverCovered, Listed, Named;
    if Commit(w, plan).Ok? {
      var s, after := w.store, Commit(w, plan).value;
      forall p | p in after.rows ensures RowSurvives(after, p) {
        assert RowSurvives(s, p);
      }
      forall id: AgreementId ensures ListSurvives(after, id) {
        assert ListSurvives(s, id);
      }
    }
  }

  lemma AddingSurvives(s: Store, g: Garage)
    requires Survives(s) && StoreGarage(s, g).Ok?
    ensures Survives(StoreGarage(s, g).value) && Later(s, StoreGarage(s, g).value)
  {
    hide Places, Latest, HomeFirst, InOrder, Canonical, Names, EverCovered;
    var after := StoreGarage(s, g).value;
    forall p | p in after.rows ensures RowSurvives(after, p) {
      assert RowSurvives(s, p);
      var l := Latest(s.versions, s.rows[p]).value;
      CoveredAreKnown(s, s.rows[p]);
      AddingKeepsForms(s.garages, g, HomeFirst(l), l.vehicles, p);
    }
    forall id: AgreementId ensures ListSurvives(after, id) {
      assert ListSurvives(s, id);
      if Latest(s.versions, id).Some? {
        CoveredAreKnown(s, id);
      }
    }
  }

  lemma BeginKeeps(w: World, step: Step)
    requires Sound(w) && step.Begin?
    ensures Sound(Do(w, step))
  {
    hide Survives, Planned, Standing;
    if Planned(w, step.call).Some? {
      PlannedStands(w, step.call);
      SameAgreement(w, step.call);
    }
  }

  lemma SameAgreement(w: World, c: Call)
    requires Planned(w, c).Some?
    ensures Planned(w, c).value.Saving? <==> c.SaveVersion?
    ensures c.SaveVersion? ==> Planned(w, c).value.agreement == c.agreement
  {
    hide Save, DoorRegister, DoorRelease;
  }

  lemma AddKeeps(w: World, step: Step)
    requires Sound(w) && step.Add?
    ensures Sound(Do(w, step))
  {
    hide Survives, Standing, Later;
    if StoreGarage(w.store, step.garage).Ok? {
      AddingSurvives(w.store, step.garage);
      forall t | t in w.open ensures Standing(Do(w, step).store, w.open[t]) {
        StillStanding(w.store, Do(w, step).store, w.open[t]);
      }
    }
  }

  lemma CommitSurvives(w: World, plan: Plan)
    requires Sound(w) && Standing(w.store, plan)
    ensures Commit(w, plan).Ok? ==> Survives(Commit(w, plan).value) && Later(w.store, Commit(w, plan).value)
  {
    hide Survives, Standing, Commit, Later, Sound;
    if Commit(w, plan).Ok? {
      match plan {
        case Saving(_, _, _, _, _) => SavingSurvives(w, plan);
        case Registering(_, _, _, _, _) => RegisteringSurvives(w, plan);
        case Releasing(_, _, _, _) => ReleasingSurvives(w, plan);
      }
    }
  }

  /** A write adds a version of its own agreement, or none. */
  lemma OthersReadTheSame(w: World, plan: Plan, id: AgreementId)
    requires Sound(w) && Standing(w.store, plan) && (plan.Saving? ==> plan.agreement.id != id)
    ensures Commit(w, plan).Ok? ==> Latest(Commit(w, plan).value.versions, id) == Latest(w.store.versions, id)
  {
    hide Survives, Latest, Listed, Collides, KeptOf, Reaching, Accepted, RefusalOfVersion;
    if plan.Saving? && Commit(w, plan).Ok? {
      StandingSupersedes(w.store, plan);
      LatestAfter(w.store.versions, plan.agreement, id);
    }
  }

  lemma WriteKeeps(w: World, tx: TransactionId)
    requires Sound(w)
    ensures Sound(Do(w, Write(tx)))
  {
    hide Survives, Standing, Commit, Later;
    if tx in w.open && Commit(w, w.open[tx]).Ok? {
      var plan := w.open[tx];
      var after := Commit(w, plan).value;
      CommitSurvives(w, plan);
      forall t | t in w.open && t != tx ensures Standing(after, w.open[t]) {
        if w.open[t].Saving? {
          OthersReadTheSame(w, plan, w.open[t].agreement.id);
        }
        StillStanding(w.store, after, w.open[t]);
      }
    }
  }

  /** What holds of the store and of every plan under way holds after any steps. */
  lemma {:induction false} RacesKeep(w: World, steps: seq<Step>)
    requires Sound(w)
    ensures Sound(Reach(w, steps))
  {
    hide Sound;
    if steps != [] {
      var before, step := Reach(w, steps[..|steps| - 1]), steps[|steps| - 1];
      RacesKeep(w, steps[..|steps| - 1]);
      match step {
        case Add(_) => AddKeeps(before, step);
        case Begin(_, _) => BeginKeeps(before, step);
        case Write(tx) => WriteKeeps(before, tx);
        case Abort(tx) => AbortKeeps(before, tx);
      }
    }
  }

  lemma AbortKeeps(w: World, tx: TransactionId)
    requires Sound(w)
    ensures Sound(Do(w, Abort(tx)))
  {
    hide Survives, Standing;
  }

  lemma KeptIsSound(s: Store)
    requires Kept(s)
    ensures Sound(Opened(s))
  {
    hide Kept, Survives;
    KeptSurvives(s);
  }

  /** However plans and writes of any calls interleave, aborts included, from a store of which `Register.Kept` holds:
      versions still go up with home, registrar and payer fixed, every row is in its garage's form at a garage some
      version of its holder's covered, and a self-registered agreement has no row off its latest list. */
  lemma RacesSurvive(s: Store, steps: seq<Step>)
    requires Kept(s)
    ensures Survives(Reach(Opened(s), steps).store)
  {
    hide Kept, Survives, Reach;
    KeptIsSound(s);
    RacesKeep(Opened(s), steps);
  }

  // ---------------------------------------------------------------- what is lost, and exactly when

  predicate IsActiveHere(s: Store, id: AgreementId) {
    var l := Latest(s.versions, id);
    l.Some? && l.value.registrar.ThisModule? && l.value.status.Active?
  }

  predicate AtACoveredGarage(s: Store, p: Place)
    requires p in s.rows
  {
    Latest(s.versions, s.rows[p]).Some? && p.garage in Latest(s.versions, s.rows[p]).value.covered
  }

  ghost predicate HasItsList(s: Store, id: AgreementId) {
    IsActiveHere(s, id) ==>
      forall p :: p in Listed(s.garages, Latest(s.versions, id).value) ==> Holds(s.rows, id, p)
  }

  lemma KeptIsMore(s: Store)
    ensures Kept(s)
            <==> Survives(s) && (forall p :: p in s.rows ==> AtACoveredGarage(s, p))
                 && forall id: AgreementId :: HasItsList(s, id)
  {
    hide Places, InOrder, Latest, Canonical, HomeFirst, ListFormed, GaragesKnown, EverCovered;
    if Kept(s) {
      KeptSurvives(s);
      forall p | p in s.rows ensures AtACoveredGarage(s, p) {
        assert RowInStep(s, p);
      }
      forall id: AgreementId ensures HasItsList(s, id) {
        assert ListHeld(s, id);
      }
    }
    if Survives(s) && (forall p :: p in s.rows ==> AtACoveredGarage(s, p))
       && forall id: AgreementId :: HasItsList(s, id) {
      forall p | p in s.rows ensures RowInStep(s, p) {
        assert RowSurvives(s, p) && AtACoveredGarage(s, p);
      }
      forall id: AgreementId ensures ListHeld(s, id) {
        assert ListSurvives(s, id) && HasItsList(s, id);
      }
    }
  }

  /** None of the rows the write takes over is by then on the list of an active agreement. */
  predicate TakesFromNoActive(w: World, id: AgreementId, places: set<Place>) {
    forall p :: p in places && p in w.store.rows && w.store.rows[p] != id ==> !IsActiveHere(w.store, w.store.rows[p])
  }

  /** Every row the plan was to take over is still there, or the agreement's own by now. */
  predicate FindsWhatItTook(w: World, plan: Plan)
    requires plan.Saving?
  {
    forall p :: p in Listed(w.store.garages, plan.agreement) && p in plan.taken ==>
                  Stands(w, p, plan.taken[p]) || Holds(w.store.rows, plan.agreement.id, p)
  }

  /** What can be checked before the write: no row to be taken over has gone or passed to an active list since the
      plan, and the door's agreement still covers where it writes. */
  predicate Lossless(w: World, plan: Plan) {
    match plan
    case Saving(_, a, _, _, taken) =>
      var places := Listed(w.store.garages, a);
      TakesFromNoActive(w, a.id, Reaching(w, places, taken))
      && (a.registrar.ThisModule? && a.status.Active? ==> FindsWhatItTook(w, plan))
    case Registering(id, text, _, covered, taken) =>
      var reaching := Reaching(w, Places(w.store.garages, covered, [text]), taken);
      TakesFromNoActive(w, id, reaching)
      && forall p :: p in reaching ==> StillCovers(w.store, id, p.garage)
    case Releasing(_, _, _, _) => true
  }

  predicate StillCovers(s: Store, id: AgreementId, g: GarageId) {
    Latest(s.versions, id).Some? && g in Latest(s.versions, id).value.covered
  }

  /** A write takes rows over, and of other agreements' it takes no more: their active lists stay whole exactly when
      none of these rows was on one. */
  lemma OthersKeepTheirs(w: World, after: Store, id: AgreementId, reaching: set<Place>)
    requires Kept(w.store) && after.garages == w.store.garages
    requires forall other: AgreementId :: other != id ==>
                                            Latest(after.versions, other) == Latest(w.store.versions, other)
    requires forall p :: p in w.store.rows && w.store.rows[p] != id && p !in reaching ==>
                           Holds(after.rows, w.store.rows[p], p)
    requires forall p :: p in reaching ==> Holds(after.rows, id, p)
    ensures (forall other: AgreementId :: other != id ==> HasItsList(after, other))
            <==> TakesFromNoActive(w, id, reaching)
  {
    hide Places, InOrder, Latest, Canonical, HomeFirst, ListFormed, GaragesKnown;
    var s := w.store;
    if TakesFromNoActive(w, id, reaching) {
      forall other: AgreementId | other != id ensures HasItsList(after, other) {
        assert ListHeld(s, other);
      }
    } else {
      var p :| p in reaching && p in s.rows && s.rows[p] != id && IsActiveHere(s, s.rows[p]);
      var loser := s.rows[p];
      assert RowInStep(s, p) && Latest(after.versions, loser) == Latest(s.versions, loser);
      assert p in Listed(after.garages, Latest(after.versions, loser).value) && !Holds(after.rows, loser, p);
      assert !HasItsList(after, loser);
    }
  }

  lemma SavedListIff(w: World, plan: Plan)
    requires plan.Saving? && Commit(w, plan).Ok? && plan.agreement.registrar.ThisModule?
    ensures (forall p :: p in Listed(w.store.garages, plan.agreement) ==>
                           Holds(Commit(w, plan).value.rows, plan.agreement.id, p))
            <==> FindsWhatItTook(w, plan)
  {
    hide Listed, Stands;
    var s, after, a := w.store, Commit(w, plan).value, plan.agreement;
    forall p | p in Listed(s.garages, a)
      ensures Holds(after.rows, a.id, p)
              <==> (p in plan.taken ==> Stands(w, p, plan.taken[p]) || Holds(s.rows, a.id, p))
    {
      assert !(p !in plan.taken && p in s.rows && s.rows[p] != a.id);
    }
  }

  lemma SavingKeepsIff(w: World, plan: Plan)
    requires Sound(w) && Kept(w.store) && plan.Saving? && Standing(w.store, plan) && Commit(w, plan).Ok?
    ensures Kept(Commit(w, plan).value) <==> Lossless(w, plan)
  {
    hide Kept, Accepted, RefusalOfVersion, InOrder, Latest, Listed, Collides, Survives, IsActiveHere, Supersedes,
         Stands, Standing, Later, TakesFromNoActive;
    var s, after, a := w.store, Commit(w, plan).value, plan.agreement;
    var places := Listed(s.garages, a);
    SavingSurvives(w, plan);
    StandingSupersedes(s, plan);
    KeptIsMore(after);
    SavingCovers(w, plan);
    LatestAndActive(s, after, a);
    SavedTakes(w, plan);
    OthersKeepTheirs(w, after, a.id, Reaching(w, places, plan.taken));
    if a.registrar.ThisModule? {
      SavedListIff(w, plan);
    }
    assert HasItsList(after, a.id) <==> (IsActiveHere(after, a.id) ==> FindsWhatItTook(w, plan));
  }

  lemma SavedTakes(w: World, plan: Plan)
    requires plan.Saving? && Commit(w, plan).Ok?
    ensures var reaching := Reaching(w, Listed(w.store.garages, plan.agreement), plan.taken);
            var after, id := Commit(w, plan).value.rows, plan.agreement.id;
            (forall p :: p in reaching ==> Holds(after, id, p))
            && forall p :: p in w.store.rows && w.store.rows[p] != id && p !in reaching ==>
                             Holds(after, w.store.rows[p], p)
  {
    hide Listed, Stands, Collides, HomeFirst;
  }

  lemma LatestAndActive(s: Store, after: Store, a: Agreement)
    requires Survives(s) && Accepted(a) && Supersedes(s.versions, a)
    requires after.garages == s.garages && after.versions == s.versions + [a]
    ensures forall id: AgreementId :: Latest(after.versions, id)
                                      == if id == a.id then Some(a) else Latest(s.versions, id)
    ensures IsActiveHere(after, a.id) <==> a.registrar.ThisModule? && a.status.Active?
    ensures forall id: AgreementId :: id != a.id ==> IsActiveHere(after, id) == IsActiveHere(s, id)
  {
    hide Accepted, InOrder, Latest, Later;
    AfterASave(s, after, a);
  }

  lemma SavingCovers(w: World, plan: Plan)
    requires Sound(w) && Kept(w.store) && plan.Saving? && Standing(w.store, plan) && Commit(w, plan).Ok?
    ensures var after := Commit(w, plan).value; forall p :: p in after.rows ==> AtACoveredGarage(after, p)
  {
    hide Kept, Accepted, Places, RefusalOfVersion, InOrder, Latest, Canonical, HomeFirst, ListFormed, EverCovered,
         Listed, Collides, Reaching;
    var s, after, a := w.store, Commit(w, plan).value, plan.agreement;
    StandingSupersedes(s, plan);
    AfterASave(s, after, a);
    HomeIsCovered(a);
    HomeFirstKeeps(a);
    KeptIsMore(s);
    forall p | p in after.rows ensures AtACoveredGarage(after, p) {
      SavedRow(w, plan, p);
      if p in Listed(s.garages, a) {
        ListedAre(s, a, p);
      }
      assert p in s.rows ==> AtACoveredGarage(s, p);
    }
  }

  lemma RegisteringKeepsIff(w: World, plan: Plan)
    requires Sound(w) && Kept(w.store) && plan.Registering? && Standing(w.store, plan) && Commit(w, plan).Ok?
    ensures Kept(Commit(w, plan).value) <==> Lossless(w, plan)
  {
    hide Kept, Places, Latest, EverCovered, Listed, Collides, Survives, Sound, Later, FormAt;
    var s, after := w.store, Commit(w, plan).value;
    var reaching := Reaching(w, Places(s.garages, plan.covered, [plan.text]), plan.taken);
    RegisteringSurvives(w, plan);
    KeptIsMore(s);
    KeptIsMore(after);
    assert HasItsList(after, plan.id);
    OthersKeepTheirs(w, after, plan.id, reaching);
    forall p | p in after.rows
      ensures AtACoveredGarage(after, p) <==> (p in reaching ==> StillCovers(s, plan.id, p.garage))
    {
      assert p !in reaching ==> AtACoveredGarage(s, p);
    }
  }

  lemma ReleasingKeeps(w: World, plan: Plan)
    requires Sound(w) && Kept(w.store) && plan.Releasing? && Standing(w.store, plan)
    ensures Commit(w, plan).Ok? ==> Kept(Commit(w, plan).value)
  {
    hide Kept, Places, Latest, EverCovered, Listed, Survives, Sound, Later, FormAt;
    if Commit(w, plan).Ok? {
      var s, after := w.store, Commit(w, plan).value;
      ReleasingSurvives(w, plan);
      KeptIsMore(s);
      KeptIsMore(after);
      forall p | p in after.rows ensures AtACoveredGarage(after, p) {
        assert AtACoveredGarage(s, p);
      }
      forall id: AgreementId ensures HasItsList(after, id) {
        assert HasItsList(s, id);
      }
    }
  }

  /** A write that is not refused leaves `Register.Kept` true exactly when it is lossless. */
  lemma WhenAWriteKeeps(w: World, tx: TransactionId)
    requires Sound(w) && Kept(w.store) && tx in w.open && Commit(w, w.open[tx]).Ok?
    ensures Kept(Do(w, Write(tx)).store) <==> Lossless(w, w.open[tx])
  {
    hide Kept, Commit, Standing, Survives;
    match w.open[tx] {
      case Saving(_, _, _, _, _) => SavingKeepsIff(w, w.open[tx]);
      case Registering(_, _, _, _, _) => RegisteringKeepsIff(w, w.open[tx]);
      case Releasing(_, _, _, _) => ReleasingKeeps(w, w.open[tx]);
    }
  }

  // ---------------------------------------------------------------- runs that are runs of calls

  ghost function CallOf(plan: Plan): Call {
    match plan
    case Saving(home, a, paid, now, _) => SaveVersion(home, a, paid, now)
    case Registering(id, text, now, _, _) => RegisterAtTheDoor(id, text, now)
    case Releasing(id, text, named, _) => ReleaseAtTheDoor(id, text, named)
  }

  predicate StillTheirs(w: World, id: AgreementId, places: set<Place>, taken: map<Place, RowId>, now: Instant) {
    forall p :: p in places && p in taken ==> Stands(w, p, taken[p]) && Takeable(w.store, id, p, now)
  }

  /** Nothing the write relies on has changed since the plan: the rows to take over are there and free to take, and the
      door's agreement covers the garages it did. */
  ghost predicate Timely(w: World, plan: Plan) {
    match plan
    case Saving(_, a, _, now, taken) => StillTheirs(w, a.id, Listed(w.store.garages, a), taken, now)
    case Registering(id, text, now, covered, taken) =>
      Latest(w.store.versions, id).Some? && covered == HomeFirst(Latest(w.store.versions, id).value)
      && StillTheirs(w, id, Places(w.store.garages, covered, [text]), taken, now)
    case Releasing(id, text, named, reached) =>
      Latest(w.store.versions, id).Some?
      && (var l := Latest(w.store.versions, id).value;
          reached == Reached(l, named) && (named.Some? ==> named.value in HomeFirst(l))
          && (named.None? ==> !Ambiguous(w.store, id, text, HomeFirst(l))))
  }

  /** Every place is free to take, so the plan made again would pass. */
  lemma PlannedAgain(w: World, id: AgreementId, covered: seq<GarageId>, texts: seq<string>, taken: map<Place, RowId>,
                     now: Instant)
    requires var places := Places(w.store.garages, covered, texts);
             !Collides(w, id, places, taken) && StillTheirs(w, id, places, taken, now)
    requires forall g, j :: g in covered && 0 <= j < |texts| ==> FormAt(w.store.garages, g, texts[j]).Some?
    ensures PlanRefusal(w.store, id, covered, texts, now).None?
    ensures Reaching(w, Places(w.store.garages, covered, texts), taken) == Places(w.store.garages, covered, texts)
  {
    hide FormAt, Places, Freed, PlanRefusal;
    PlanPasses(w.store, id, covered, texts, now);
    assert forall i :: 0 <= i < |covered| ==> covered[i] in covered;
    forall p | p in Places(w.store.garages, covered, texts) ensures Takeable(w.store, id, p, now) {
      assert !(p !in taken && p in w.store.rows && w.store.rows[p] != id);
    }
  }

  lemma SavingInTime(w: World, plan: Plan)
    requires plan.Saving? && Standing(w.store, plan) && Timely(w, plan) && Commit(w, plan).Ok?
    ensures Post(w.store, CallOf(plan)) == Commit(w, plan)
  {
    hide FormAt, Places, PlanRefusal, Accepted, RefusalOfVersion, Latest, HomeFirst, ListsTwice, Collides, StillTheirs,
         Reaching;
    var s, a := w.store, plan.agreement;
    HomeIsCovered(a);
    HomeFirstKeeps(a);
    if a.registrar.ThisModule? {
      PlannedAgain(w, a.id, HomeFirst(a), a.vehicles, plan.taken, plan.now);
      assert Claim(KeptOf(s.rows, a, Listed(s.garages, a)), a.id, Listed(s.garages, a))
             == InStep(s.rows, a.id, Listed(s.garages, a));
    } else {
      NoTextsNoPlaces(s.garages, a);
      assert Reaching(w, {}, plan.taken) == {} by { ReachingNone(w, plan.taken); }
      assert Claim(ReleaseDropped(s.rows, a.id, HomeFirst(a)), a.id, {}) == ReleaseDropped(s.rows, a.id, HomeFirst(a));
    }
  }

  lemma ReachingNone(w: World, taken: map<Place, RowId>)
    ensures Reaching(w, {}, taken) == {}
  {}

  lemma NoTextsNoPlaces(garages: map<GarageId, Garage>, a: Agreement)
    requires Accepted(a) && a.registrar.Outside?
    ensures Listed(garages, a) == {}
  {
    assert a.vehicles == [];
  }

  lemma RegisteringInTime(w: World, plan: Plan)
    requires plan.Registering? && Standing(w.store, plan) && Timely(w, plan) && Commit(w, plan).Ok?
    ensures Post(w.store, CallOf(plan)) == Commit(w, plan)
  {
    hide FormAt, Places, PlanRefusal, Latest, HomeFirst, Collides, StillTheirs, Reaching;
    PlannedAgain(w, plan.id, plan.covered, [plan.text], plan.taken, plan.now);
  }

  lemma ReleasingInTime(w: World, plan: Plan)
    requires plan.Releasing? && Standing(w.store, plan) && Timely(w, plan) && Commit(w, plan).Ok?
    ensures Post(w.store, CallOf(plan)) == Commit(w, plan)
  {
    hide Places, Latest, HomeFirst, Ambiguous, Normalise;
    var s, l := w.store, Latest(w.store.versions, plan.id).value;
    if plan.named.Some? {
      assert plan.reached[0] in plan.reached && FormAt(s.garages, plan.named.value, plan.text).Some?;
    }
    assert !FormlessAt(s.garages, plan.reached, plan.text);
    assert l.registrar.Outside?;
  }

  lemma InTime(w: World, plan: Plan)
    requires Standing(w.store, plan) && Timely(w, plan) && Commit(w, plan).Ok?
    ensures Post(w.store, CallOf(plan)) == Commit(w, plan)
  {
    hide Standing, Timely, Commit, CallOf, Post;
    match plan {
      case Saving(_, _, _, _, _) => SavingInTime(w, plan);
      case Registering(_, _, _, _, _) => RegisteringInTime(w, plan);
      case Releasing(_, _, _, _) => ReleasingInTime(w, plan);
    }
  }

  /** A plan remembers, of the places it will write, those whose rows others hold, each by the id of its row. */
  lemma WhatAPlanRemembers(w: World, c: Call, p: Place)
    requires Numbered(w) && Planned(w, c).Some? && !c.ReleaseAtTheDoor?
    ensures var plan := Planned(w, c).value;
            var id := if c.SaveVersion? then c.agreement.id else c.id;
            (p in plan.taken <==> p in PlacesOf(w, plan) && p in w.store.rows && w.store.rows[p] != id)
            && (p in plan.taken ==> plan.taken[p] == w.ids[p])
  {
    hide Places, Save, DoorRegister, HomeFirst, Latest;
  }

  function PlacesOf(w: World, plan: Plan): set<Place>
    requires !plan.Releasing?
  {
    match plan
    case Saving(_, a, _, _, _) => Listed(w.store.garages, a)
    case Registering(_, text, _, covered, _) => Places(w.store.garages, covered, [text])
  }

  /** What a write leaves at the places it is for: the agreement's, where it remembered no row or the row it remembered
      is the one that is there, whoever has it; and otherwise what was there, if anything was. It is refused where a
      place it remembered no row of has come to be another agreement's. */
  lemma WhatAWriteLeaves(w: World, plan: Plan, p: Place)
    requires Numbered(w) && !plan.Releasing?
    ensures var id := if plan.Saving? then plan.agreement.id else plan.id;
            Commit(w, plan).Refused?
            <==> exists q :: q in PlacesOf(w, plan) && q !in plan.taken && q in w.store.rows && w.store.rows[q] != id
    ensures Commit(w, plan).Ok? && p in PlacesOf(w, plan)
            && (plan.Saving? ==> plan.agreement.registrar == ThisModule) ==>
              var after, id := Commit(w, plan).value.rows, if plan.Saving? then plan.agreement.id else plan.id;
              if p !in plan.taken || (p in w.store.rows && w.ids[p] == plan.taken[p]) then Holds(after, id, p)
              else (p in after <==> p in w.store.rows) && (p in after ==> after[p] == w.store.rows[p])
  {
    hide Places, HomeFirst;
  }

  /** With nothing in between, a plan and its write are the call. */
  lemma PlannedAndWrittenAtOnce(w: World, tx: TransactionId, c: Call)
    requires Sound(w) && tx !in w.open && !Waits(w.open, c) && Planned(w, c).Some?
    ensures var begun := Do(w, Begin(tx, c));
            tx in begun.open && Commit(begun, begun.open[tx]) == Post(w.store, c)
            && (Post(w.store, c).Ok? ==> Do(begun, Write(tx)).store == Post(w.store, c).value)
            && Do(begun, Write(tx)).open == w.open
  {
    hide Survives, Standing, Commit, Post, Planned;
    var begun := Do(w, Begin(tx, c));
    PlannedStands(w, c);
    FreshPlan(w, begun, c);
    assert w.open[tx := Planned(w, c).value] - {tx} == w.open;
    if Commit(begun, Planned(w, c).value).Ok? {
      InTime(begun, Planned(w, c).value);
    }
  }

  lemma FreshPlan(w: World, begun: World, c: Call)
    requires Sound(w) && Planned(w, c).Some? && begun == w.(open := begun.open)
    ensures var plan := Planned(w, c).value;
            CallOf(plan) == c
            && if plan.Releasing? then Commit(begun, plan).Ok? ==> Timely(begun, plan) else
                 Timely(begun, plan) && Commit(begun, plan).Ok?
    ensures Commit(begun, Planned(w, c).value).Refused? ==> Commit(begun, Planned(w, c).value) == Post(w.store, c)
  {
    hide Survives, Standing, Places, HomeFirst, Latest, FormAt, PlanRefusal, Accepted, RefusalOfVersion, Freed,
         Ambiguous, ListsTwice;
    match c {
      case SaveVersion(_, a, _, now) =>
        PlanPasses(w.store, a.id, HomeFirst(a), a.vehicles, now);
        if a.registrar.Outside? {
          NoTextsNoPlaces(w.store.garages, a);
        }
      case RegisterAtTheDoor(id, text, now) =>
        PlanPasses(w.store, id, HomeFirst(Latest(w.store.versions, id).value), [text], now);
      case ReleaseAtTheDoor(id, text, named) =>
    }
  }

  /** The step commits a write. */
  ghost predicate Commits(w: World, step: Step) {
    step.Write? && step.tx in w.open && Commit(w, w.open[step.tx]).Ok?
  }

  /** The calls of a run in the order of their writes. */
  ghost function CallsOf(w: World, steps: seq<Step>): seq<Call> {
    if steps == [] then []
    else
      var front, step := steps[..|steps| - 1], steps[|steps| - 1];
      var before := Reach(w, front);
      CallsOf(w, front) + (if step.Add? then [AddGarage(step.garage)]
                           else if Commits(before, step) then [CallOf(before.open[step.tx])]
                           else [])
  }

  ghost predicate AllInTime(w: World, steps: seq<Step>) {
    steps != [] ==>
      var front, step := steps[..|steps| - 1], steps[|steps| - 1];
      var before := Reach(w, front);
      AllInTime(w, front) && (Commits(before, step) ==> Timely(before, before.open[step.tx]))
  }

  /** Where every write is in time, interleaved transactions leave the store that their calls leave one at a time, in
      the order of their writes. */
  lemma {:induction false} TimelyRunsAreSerial(w: World, steps: seq<Step>)
    requires Sound(w) && AllInTime(w, steps)
    ensures Reach(w, steps).store == Register.Run(w.store, CallsOf(w, steps))
  {
    hide Standing, Survives, Timely, Commit, CallOf, Post, Planned;
    if steps != [] {
      var front, step := steps[..|steps| - 1], steps[|steps| - 1];
      var before, calls := Reach(w, front), CallsOf(w, front);
      TimelyRunsAreSerial(w, front);
      RacesKeep(w, front);
      if step.Add? {
        assert (calls + [AddGarage(step.garage)])[..|calls|] == calls;
      } else if Commits(before, step) {
        InTime(before, before.open[step.tx]);
        assert (calls + [CallOf(before.open[step.tx])])[..|calls|] == calls;
      } else {
        assert calls + [] == calls;
      }
    }
  }
}
