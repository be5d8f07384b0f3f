/** The vehicle register of `store/records.py`: an index from a garage and an identity, in the form that garage
    compares in, to the agreement that holds it, kept in step with versioned agreements.

    What each call does to the store is a function here; `RegisterStore` has the calls as they update it. */
module Register {
  import opened Calendar
  import opened Garages
  import opened Agreements
  import opened Cycle
  import opened Pauses
  import opened Options

  /** A registration's key. That the index is a map is the table's UNIQUE on it. */
  datatype Place = Place(garage: GarageId, form: string)

  /** `versions` is every version saved, in the order of the saves. */
  datatype Store = Store(garages: map<GarageId, Garage>, versions: seq<Agreement>, rows: map<Place, AgreementId>)

  datatype Refusal =
    | NotAGarage | GarageTaken
    | NotAnAgreement | GarageMismatch | HomeMoved | RegistrarChanged | VersionNotNewer | PayerChanged
    | PauseOverPaidDays
    | GarageNotFound | IdentityEmpty | AlreadyRegistered | VehicleListedTwice
    | AgreementNotFound | RegistrarIsThisModule | GarageNotCovered | ReleaseAmbiguous | NotRegistered

  type Saved = Result<Store, Refusal>

  // ---------------------------------------------------------------- reading the store

  /** The highest version stored under an id. */
  function Latest(versions: seq<Agreement>, id: AgreementId): (l: Option<Agreement>)
    ensures l.Some? ==> l.value in versions && l.value.id == id
    ensures l.None? ==> forall a :: a in versions ==> a.id != id
    ensures l.Some? ==> forall a :: a in versions && a.id == id ==> a.version <= l.value.version
  {
    if versions == [] then None
    else
      var front, last := Latest(versions[..|versions| - 1], id), versions[|versions| - 1];
      assert versions == versions[..|versions| - 1] + [last];
      if last.id == id && (front.None? || last.version > front.value.version) then Some(last) else front
  }

  /** The covered set, home first. */
  function HomeFirst(a: Agreement): seq<GarageId> {
    [a.garage] + Without(a.covered, a.garage)
  }

  function Without(gs: seq<GarageId>, g: GarageId): seq<GarageId> {
    if gs == [] then []
    else Without(gs[..|gs| - 1], g) + (if gs[|gs| - 1] == g then [] else [gs[|gs| - 1]])
  }

  lemma {:induction false} WithoutKeeps(gs: seq<GarageId>, g: GarageId, x: GarageId)
    ensures x in Without(gs, g) <==> x in gs && x != g
  {
    if gs != [] {
      WithoutKeeps(gs[..|gs| - 1], g, x);
      assert gs == gs[..|gs| - 1] + [gs[|gs| - 1]];
    }
  }

  lemma HomeFirstKeeps(a: Agreement)
    requires a.garage in a.covered
    ensures forall x :: x in HomeFirst(a) <==> x in a.covered
  {
    forall x ensures x in HomeFirst(a) <==> x in a.covered {
      WithoutKeeps(a.covered, a.garage, x);
    }
  }

  function FormAt(garages: map<GarageId, Garage>, g: GarageId, text: string): Option<string> {
    if g in garages then Normalise(garages[g].rule, text) else None
  }

  /** The places a list of texts names across garages. */
  function Places(garages: map<GarageId, Garage>, covered: seq<GarageId>, texts: seq<string>): set<Place> {
    set i, j | 0 <= i < |covered| && 0 <= j < |texts| && FormAt(garages, covered[i], texts[j]).Some?
      :: Place(covered[i], FormAt(garages, covered[i], texts[j]).value)
  }

  /** Whether an agreement's rows at a garage are there for another to take: cancelled, its day reached there. */
  predicate Freed(s: Store, holder: AgreementId, g: GarageId, now: Instant) {
    var l := Latest(s.versions, holder);
    g in s.garages && l.Some? && l.value.status.Cancelled? && l.value.cancelledDay.Some?
    && l.value.cancelledDay.value <= s.garages[g].zone.DayOf(now)
  }

  predicate Takeable(s: Store, id: AgreementId, p: Place, now: Instant) {
    p in s.rows && s.rows[p] != id ==> Freed(s, s.rows[p], p.garage, now)
  }

  /** The refusals at one garage: an identity that comes to nothing there, then one held by another. */
  function RefusalAt(s: Store, id: AgreementId, g: GarageId, texts: seq<string>, now: Instant): Option<Refusal> {
    if exists j :: 0 <= j < |texts| && FormAt(s.garages, g, texts[j]).None? then Some(IdentityEmpty)
    else if exists p :: p in Places(s.garages, [g], texts) && !Takeable(s, id, p, now) then Some(AlreadyRegistered)
    else None
  }

  /** `_plan_registrations`: every garage in turn, the first refusal wins. */
  function PlanRefusal(s: Store, id: AgreementId, covered: seq<GarageId>, texts: seq<string>,
                       now: Instant): Option<Refusal>
  {
    if covered == [] then None
    else
      var earlier := PlanRefusal(s, id, covered[..|covered| - 1], texts, now);
      if earlier.Some? then earlier else RefusalAt(s, id, covered[|covered| - 1], texts, now)
  }

  // ---------------------------------------------------------------- what each call does to the rows

  /** Every row of `id` outside `covered` goes. */
  function ReleaseDropped(rows: map<Place, AgreementId>, id: AgreementId,
                          covered: seq<GarageId>): map<Place, AgreementId>
  {
    map p | p in rows && (rows[p] == id ==> p.garage in covered) :: rows[p]
  }

  /** The places become `id`'s, whoever had them. */
  function Claim(rows: map<Place, AgreementId>, id: AgreementId, places: set<Place>): map<Place, AgreementId> {
    rows + (map p | p in places :: id)
  }

  /** A version's list: its places are the agreement's, and every other row of its goes. */
  function InStep(rows: map<Place, AgreementId>, id: AgreementId, places: set<Place>): map<Place, AgreementId> {
    Claim(map p | p in rows && rows[p] != id :: rows[p], id, places)
  }

  /** Two texts of one list that its home compares as one. */
  predicate ListsTwice(garages: map<GarageId, Garage>, a: Agreement) {
    exists i, j :: 0 <= i < j < |a.vehicles|
                   && FormAt(garages, a.garage, a.vehicles[i]) == FormAt(garages, a.garage, a.vehicles[j])
  }

  /** What a version is judged against: the newest one stored. */
  ghost function RefusalOfVersion(newest: Agreement, a: Agreement, paid: seq<Period>): Option<Refusal> {
    if newest.garage != a.garage then Some(HomeMoved)
    else if newest.registrar != a.registrar then Some(RegistrarChanged)
    else if a.version <= newest.version then Some(VersionNotNewer)
    else if newest.payer != a.payer then Some(PayerChanged)
    else if PausesPaidDays(a.pauses, newest.pauses, paid) then Some(PauseOverPaidDays)
    else None
  }

  /** `store_garage`: what the constructor accepts, under an id of its own. */
  function StoreGarage(s: Store, g: Garage): Saved {
    if !WellFormed(g) then Refused(NotAGarage)
    else if g.id in s.garages then Refused(GarageTaken)
    else Ok(s.(garages := s.garages[g.id := g]))
  }

  /** `store_agreement`. `paid` is the periods of the agreement's invoice lines whose invoice is paid. */
  ghost function Save(s: Store, home: GarageId, a: Agreement, paid: seq<Period>, now: Instant): Saved {
    var newest := Latest(s.versions, a.id);
    var stale := if newest.Some? then RefusalOfVersion(newest.value, a, paid) else None;
    if !Accepted(a) then Refused(NotAnAgreement)
    else if home != a.garage then Refused(GarageMismatch)
    else if stale.Some? then Refused(stale.value)
    else if exists g :: g in a.covered && g !in s.garages then Refused(GarageNotFound)
    else if a.registrar.Outside? then
      Ok(s.(versions := s.versions + [a], rows := ReleaseDropped(s.rows, a.id, HomeFirst(a))))
    else
      var refusal := PlanRefusal(s, a.id, HomeFirst(a), a.vehicles, now);
      if refusal.Some? then Refused(refusal.value)
      else if ListsTwice(s.garages, a) then Refused(VehicleListedTwice)
      else Ok(s.(versions := s.versions + [a],
                 rows := InStep(s.rows, a.id, Places(s.garages, HomeFirst(a), a.vehicles))))
  }

  /** `register_from_outside`: one text, at every garage the latest version covers, all or none. */
  function DoorRegister(s: Store, id: AgreementId, text: string, now: Instant): Saved {
    match Latest(s.versions, id)
    case None => Refused(AgreementNotFound)
    case Some(l) =>
      if !l.registrar.Outside? then Refused(RegistrarIsThisModule)
      else
        var refusal := PlanRefusal(s, id, HomeFirst(l), [text], now);
        if refusal.Some? then Refused(refusal.value)
        else Ok(s.(rows := Claim(s.rows, id, Places(s.garages, HomeFirst(l), [text]))))
  }

  predicate Holds(rows: map<Place, AgreementId>, id: AgreementId, p: Place) {
    p in rows && rows[p] == id
  }

  /** At `g` the text would take a row that is also the fold there of another identity the agreement holds at `h`. */
  predicate AmbiguousAt(s: Store, id: AgreementId, text: string, g: GarageId, h: GarageId, m: string) {
    g != h && FormAt(s.garages, g, text).Some? && Holds(s.rows, id, Place(g, FormAt(s.garages, g, text).value))
    && Holds(s.rows, id, Place(h, m)) && Some(m) != FormAt(s.garages, h, text)
    && FormAt(s.garages, g, m) == FormAt(s.garages, g, text)
  }

  /** `_refuse_an_ambiguous_release`. */
  predicate Ambiguous(s: Store, id: AgreementId, text: string, covered: seq<GarageId>) {
    exists g, p :: g in covered && p in s.rows && p.garage in covered && AmbiguousAt(s, id, text, g, p.garage, p.form)
  }

  /** The agreement's own rows that the text names. */
  function Named(s: Store, id: AgreementId, text: string, reached: seq<GarageId>): set<Place> {
    set p | p in Places(s.garages, reached, [text]) && Holds(s.rows, id, p)
  }

  /** The garages a release reaches: the one named, or all the version covers. */
  function Reached(l: Agreement, named: Option<GarageId>): seq<GarageId> {
    if named.Some? then [named.value] else HomeFirst(l)
  }

  predicate FormlessAt(garages: map<GarageId, Garage>, reached: seq<GarageId>, text: string) {
    exists i :: 0 <= i < |reached| && FormAt(garages, reached[i], text).None?
  }

  /** `release_from_outside`: everywhere, or at the one garage named. */
  function DoorRelease(s: Store, id: AgreementId, text: string, named: Option<GarageId>): Saved {
    match Latest(s.versions, id)
    case None => Refused(AgreementNotFound)
    case Some(l) =>
      if !l.registrar.Outside? then Refused(RegistrarIsThisModule)
      else if named.Some? && named.value !in s.garages then Refused(GarageNotFound)
      else if named.Some? && named.value !in HomeFirst(l) then Refused(GarageNotCovered)
      else
        var reached := Reached(l, named);
        if FormlessAt(s.garages, reached, text) then Refused(IdentityEmpty)
        else if named.None? && Ambiguous(s, id, text, HomeFirst(l)) then Refused(ReleaseAmbiguous)
        else if Named(s, id, text, reached) == {} then Refused(NotRegistered)
        else Ok(s.(rows := s.rows - Named(s, id, text, reached)))
  }

  // ---------------------------------------------------------------- runs

  datatype Call =
    | AddGarage(garage: Garage)
    | SaveVersion(home: GarageId, agreement: Agreement, paid: seq<Period>, now: Instant)
    | RegisterAtTheDoor(id: AgreementId, text: string, now: Instant)
    | ReleaseAtTheDoor(id: AgreementId, text: string, named: Option<GarageId>)

  ghost function Post(s: Store, c: Call): Saved {
    match c
    case AddGarage(g) => StoreGarage(s, g)
    case SaveVersion(home, a, paid, now) => Save(s, home, a, paid, now)
    case RegisterAtTheDoor(id, text, now) => DoorRegister(s, id, text, now)
    case ReleaseAtTheDoor(id, text, named) => DoorRelease(s, id, text, named)
  }

  /** A refusal writes nothing. */
  ghost function After(s: Store, c: Call): Store {
    if Post(s, c).Ok? then Post(s, c).value else s
  }

  ghost function Run(s: Store, calls: seq<Call>): Store {
    if calls == [] then s else After(Run(s, calls[..|calls| - 1]), calls[|calls| - 1])
  }

  // ---------------------------------------------------------------- the invariant

  /** One agreement, one home, one registrar, one payer, and versions that only go up. */
  predicate InOrder(versions: seq<Agreement>) {
    (forall i :: 0 <= i < |versions| ==> Accepted(versions[i]))
    && forall i, j :: 0 <= i < j < |versions| && versions[i].id == versions[j].id ==>
         versions[i].version < versions[j].version && versions[i].garage == versions[j].garage
         && versions[i].registrar == versions[j].registrar && versions[i].payer == versions[j].payer
  }

  /** Each garage is under its own id, and every garage a version covers is in the store. */
  ghost predicate GaragesKnown(s: Store) {
    (forall g :: g in s.garages ==> s.garages[g].id == g && WellFormed(s.garages[g]))
    && forall i, g :: 0 <= i < |s.versions| && g in s.versions[i].covered ==> g in s.garages
  }

  /** Every row is in the garage's own form, at a garage the holder's latest version covers, and for a
      self-registered holder on that version's list. */
  ghost predicate RowInStep(s: Store, p: Place)
    requires p in s.rows
  {
    var l := Latest(s.versions, s.rows[p]);
    p.garage in s.garages && Canonical(s.garages[p.garage].rule, p.form)
    && l.Some? && p.garage in l.value.covered
    && (l.value.registrar.ThisModule? ==> p in Places(s.garages, HomeFirst(l.value), l.value.vehicles))
  }

  predicate ListFormed(garages: map<GarageId, Garage>, a: Agreement) {
    forall g, j :: g in HomeFirst(a) && 0 <= j < |a.vehicles| ==> FormAt(garages, g, a.vehicles[j]).Some?
  }

  /** A self-registered agreement's list has a form at every garage it covers, and while the agreement is active
      the whole list is there. */
  ghost predicate ListHeld(s: Store, id: AgreementId) {
    var l := Latest(s.versions, id);
    l.Some? && l.value.registrar.ThisModule? ==>
      ListFormed(s.garages, l.value)
      && (l.value.status.Active? ==>
            forall p :: p in Places(s.garages, HomeFirst(l.value), l.value.vehicles) ==> Holds(s.rows, id, p))
  }

  ghost predicate Kept(s: Store) {
    InOrder(s.versions) && GaragesKnown(s)
    && (forall p :: p in s.rows ==> RowInStep(s, p))
    && (forall id: AgreementId :: ListHeld(s, id))
  }

  // ---------------------------------------------------------------- what a call keeps

  predicate Names(garages: map<GarageId, Garage>, texts: seq<string>, p: Place) {
    exists j :: 0 <= j < |texts| && FormAt(garages, p.garage, texts[j]) == Some(p.form)
  }

  lemma PlacesAre(garages: map<GarageId, Garage>, covered: seq<GarageId>, texts: seq<string>, p: Place)
    ensures p in Places(garages, covered, texts) <==> p.garage in covered && Names(garages, texts, p)
  {
    if p.garage in covered && Names(garages, texts, p) {
      var i :| 0 <= i < |covered| && covered[i] == p.garage;
      var j :| 0 <= j < |texts| && FormAt(garages, p.garage, texts[j]) == Some(p.form);
      assert Place(covered[i], FormAt(garages, covered[i], texts[j]).value) == p;
    }
  }

  lemma PlacesAreCanonical(garages: map<GarageId, Garage>, covered: seq<GarageId>, texts: seq<string>, p: Place)
    requires p in Places(garages, covered, texts)
    ensures p.garage in garages && Canonical(garages[p.garage].rule, p.form)
  {
    PlacesAre(garages, covered, texts, p);
    var j :| 0 <= j < |texts| && FormAt(garages, p.garage, texts[j]) == Some(p.form);
    NormaliseIsIdempotent(garages[p.garage].rule, texts[j]);
  }

  /** A plan that refuses nothing has found every text's form and every place free to take, at every garage. */
  lemma {:induction false} PlanPasses(s: Store, id: AgreementId, covered: seq<GarageId>, texts: seq<string>,
                                      now: Instant)
    ensures PlanRefusal(s, id, covered, texts, now).None?
            <==> (forall i, j :: 0 <= i < |covered| && 0 <= j < |texts| ==>
                                   FormAt(s.garages, covered[i], texts[j]).Some?)
                 && (forall p :: p in Places(s.garages, covered, texts) ==> Takeable(s, id, p, now))
  {
    hide Takeable, FormAt, Places;
    if covered != [] {
      var front, last := covered[..|covered| - 1], covered[|covered| - 1];
      PlanPasses(s, id, front, texts, now);
      assert covered == front + [last];
      forall p ensures p in Places(s.garages, covered, texts)
                       <==> p in Places(s.garages, front, texts) || p in Places(s.garages, [last], texts) {
        PlacesAre(s.garages, covered, texts, p);
        PlacesAre(s.garages, front, texts, p);
        PlacesAre(s.garages, [last], texts, p);
      }
    } else {
      forall p ensures p !in Places(s.garages, covered, texts) {
        PlacesAre(s.garages, covered, texts, p);
      }
    }
  }

  lemma LatestAfter(versions: seq<Agreement>, a: Agreement, id: AgreementId)
    requires Latest(versions, a.id).Some? ==> Latest(versions, a.id).value.version < a.version
    ensures Latest(versions + [a], id) == (if id == a.id then Some(a) else Latest(versions, id))
  {
    assert (versions + [a])[..|versions|] == versions;
  }

  /** A version that is next after the newest: higher, and of the same home, registrar and payer. */
  predicate Supersedes(versions: seq<Agreement>, a: Agreement) {
    var newest := Latest(versions, a.id);
    newest.Some? ==> newest.value.version < a.version && newest.value.garage == a.garage
                     && newest.value.registrar == a.registrar && newest.value.payer == a.payer
  }

  lemma SavingKeepsOrder(versions: seq<Agreement>, a: Agreement)
    requires InOrder(versions) && Accepted(a) && Supersedes(versions, a)
    ensures InOrder(versions + [a])
  {
    hide Accepted;
    var newest := Latest(versions, a.id);
    forall i | 0 <= i < |versions| && versions[i].id == a.id
      ensures versions[i].version < a.version && versions[i].garage == a.garage
              && versions[i].registrar == a.registrar && versions[i].payer == a.payer
    {
      var k :| 0 <= k < |versions| && versions[k] == newest.value;
      assert versions[i] in versions;
    }
  }

  /** Rows that pass to `id` were nobody's, its own, or a cancelled agreement's: no active list loses one. */
  lemma ClaimingKeepsTheOthers(s: Store, after: Store, id: AgreementId, places: set<Place>, other: AgreementId,
                               now: Instant)
    requires other != id && ListHeld(s, other) && after.garages == s.garages
    requires Latest(after.versions, other) == Latest(s.versions, other)
    requires forall p :: p in places ==> Takeable(s, id, p, now)
    requires forall p :: p in s.rows && s.rows[p] != id && p !in places ==>
                           p in after.rows && after.rows[p] == s.rows[p]
    ensures ListHeld(after, other)
  {
    hide Places, ListFormed;
  }

  /** A store with one more version, whose rows are the version's own or somebody else's as before. */
  lemma KeptWithOneMore(s: Store, after: Store, a: Agreement)
    requires Kept(s) && after.garages == s.garages && after.versions == s.versions + [a] && InOrder(after.versions)
    requires Latest(s.versions, a.id).Some? ==> Latest(s.versions, a.id).value.version < a.version
    requires forall g :: g in a.covered ==> g in s.garages
    requires forall p :: p in after.rows && after.rows[p] == a.id ==>
               p.garage in a.covered && Canonical(s.garages[p.garage].rule, p.form)
               && (a.registrar.ThisModule? ==> p in Places(s.garages, HomeFirst(a), a.vehicles))
    requires forall p :: p in after.rows && after.rows[p] != a.id ==> p in s.rows && s.rows[p] == after.rows[p]
    requires forall id: AgreementId :: id != a.id && Latest(after.versions, id) == Latest(s.versions, id) ==>
                                         ListHeld(after, id)
    requires a.registrar.ThisModule? ==> ListFormed(s.garages, a)
    requires a.registrar.ThisModule? ==>
               forall p :: p in Places(s.garages, HomeFirst(a), a.vehicles) ==> Holds(after.rows, a.id, p)
    ensures Kept(after)
  {
    hide Places, InOrder, Latest, Canonical, HomeFirst, ListFormed;
    forall id: AgreementId
      ensures Latest(after.versions, id) == (if id == a.id then Some(a) else Latest(s.versions, id))
    {
      LatestAfter(s.versions, a, id);
    }
    forall p | p in after.rows ensures RowInStep(after, p) {
      assert after.rows[p] != a.id ==> RowInStep(s, p);
    }
  }

  lemma OutsideSaveKeeps(s: Store, home: GarageId, a: Agreement, paid: seq<Period>, now: Instant)
    requires Kept(s) && Save(s, home, a, paid, now).Ok? && a.registrar.Outside?
    ensures Kept(Save(s, home, a, paid, now).value)
  {
    hide Accepted, Places, PlanRefusal, RefusalOfVersion, InOrder, Latest, FormAt, Canonical, HomeFirst;
    var after := Save(s, home, a, paid, now).value;
    AllowedSupersedes(s.versions, a, paid);
    SavingKeepsOrder(s.versions, a);
    HomeIsCovered(a);
    HomeFirstKeeps(a);
    forall id: AgreementId | id != a.id && Latest(after.versions, id) == Latest(s.versions, id)
      ensures ListHeld(after, id)
    {
      ClaimingKeepsTheOthers(s, after, a.id, {}, id, now);
    }
    forall p | p in after.rows && after.rows[p] == a.id ensures Canonical(s.garages[p.garage].rule, p.form) {
      assert RowInStep(s, p);
    }
    KeptWithOneMore(s, after, a);
  }

  lemma OwnSaveKeeps(s: Store, home: GarageId, a: Agreement, paid: seq<Period>, now: Instant)
    requires Kept(s) && Save(s, home, a, paid, now).Ok? && a.registrar.ThisModule?
    ensures Kept(Save(s, home, a, paid, now).value)
  {
    hide Accepted, Places, PlanRefusal, RefusalOfVersion, InOrder, Latest, FormAt, Canonical, HomeFirst, Takeable;
    var after, places := Save(s, home, a, paid, now).value, Places(s.garages, HomeFirst(a), a.vehicles);
    AllowedSupersedes(s.versions, a, paid);
    SavingKeepsOrder(s.versions, a);
    HomeIsCovered(a);
    HomeFirstKeeps(a);
    PlanPasses(s, a.id, HomeFirst(a), a.vehicles, now);
    forall p | p in places
      ensures p.garage in HomeFirst(a) && p.garage in s.garages && Canonical(s.garages[p.garage].rule, p.form)
    {
      PlacesAre(s.garages, HomeFirst(a), a.vehicles, p);
      PlacesAreCanonical(s.garages, HomeFirst(a), a.vehicles, p);
    }
    assert ListFormed(s.garages, a);
    forall id: AgreementId | id != a.id && Latest(after.versions, id) == Latest(s.versions, id)
      ensures ListHeld(after, id)
    {
      ClaimingKeepsTheOthers(s, after, a.id, places, id, now);
    }
    KeptWithOneMore(s, after, a);
  }

  lemma HomeIsCovered(a: Agreement)
    requires Accepted(a)
    ensures a.garage in a.covered
  {}

  lemma AllowedSupersedes(versions: seq<Agreement>, a: Agreement, paid: seq<Period>)
    requires Latest(versions, a.id).Some? ==> RefusalOfVersion(Latest(versions, a.id).value, a, paid).None?
    ensures Supersedes(versions, a)
  {}

  lemma DoorRegisterKeeps(s: Store, id: AgreementId, text: string, now: Instant)
    requires Kept(s) && DoorRegister(s, id, text, now).Ok?
    ensures Kept(DoorRegister(s, id, text, now).value)
  {
    hide Accepted, Places, PlanRefusal, Takeable, FormAt, Canonical, HomeFirst, ListFormed, InOrder, Latest;
    var after, l := DoorRegister(s, id, text, now).value, Latest(s.versions, id).value;
    var places := Places(s.garages, HomeFirst(l), [text]);
    LatestIsAccepted(s, id);
    HomeFirstKeeps(l);
    PlanPasses(s, id, HomeFirst(l), [text], now);
    forall p | p in places
      ensures p.garage in HomeFirst(l) && p.garage in s.garages && Canonical(s.garages[p.garage].rule, p.form)
    {
      PlacesAre(s.garages, HomeFirst(l), [text], p);
      PlacesAreCanonical(s.garages, HomeFirst(l), [text], p);
    }
    forall other: AgreementId ensures ListHeld(after, other) {
      if other != id {
        ClaimingKeepsTheOthers(s, after, id, places, other, now);
      }
    }
  }

  lemma LatestIsAccepted(s: Store, id: AgreementId)
    requires InOrder(s.versions)
    ensures var l := Latest(s.versions, id);
            l.Some? ==> Accepted(l.value) && l.value.garage in l.value.covered
  {
    if Latest(s.versions, id).Some? {
      var k :| 0 <= k < |s.versions| && s.versions[k] == Latest(s.versions, id).value;
    }
  }

  lemma DoorReleaseKeeps(s: Store, id: AgreementId, text: string, named: Option<GarageId>)
    requires Kept(s) && DoorRelease(s, id, text, named).Ok?
    ensures Kept(DoorRelease(s, id, text, named).value)
  {
    hide Places, FormAt, Canonical, Ambiguous, InOrder;
    var after := DoorRelease(s, id, text, named).value;
    var l := Latest(s.versions, id).value;
    var gone := Named(s, id, text, Reached(l, named));
    assert after.rows == s.rows - gone;
    forall p | p in s.rows && s.rows[p] != id ensures Holds(after.rows, s.rows[p], p) {
      assert p !in gone;
    }
    forall other: AgreementId ensures ListHeld(after, other) {
      assert ListHeld(s, other);
    }
    forall p | p in after.rows ensures RowInStep(after, p) {
      assert RowInStep(s, p);
    }
  }

  /** A garage the store already has keeps its forms when another is added. */
  lemma AddingKeepsForms(garages: map<GarageId, Garage>, added: Garage, covered: seq<GarageId>, texts: seq<string>,
                         p: Place)
    requires added.id !in garages && forall g :: g in covered ==> g in garages
    ensures p in Places(garages[added.id := added], covered, texts) <==> p in Places(garages, covered, texts)
  {
    hide Places;
    PlacesAre(garages[added.id := added], covered, texts, p);
    PlacesAre(garages, covered, texts, p);
    if p.garage in covered {
      forall text: string
        ensures FormAt(garages[added.id := added], p.garage, text) == FormAt(garages, p.garage, text)
      {}
      assert Names(garages[added.id := added], texts, p) <==> Names(garages, texts, p);
    }
  }

  lemma CoveredAreKnown(s: Store, id: AgreementId)
    requires InOrder(s.versions) && GaragesKnown(s) && Latest(s.versions, id).Some?
    ensures forall g :: g in HomeFirst(Latest(s.versions, id).value) ==> g in s.garages
  {
    hide HomeFirst;
    var l := Latest(s.versions, id).value;
    LatestIsAccepted(s, id);
    HomeFirstKeeps(l);
    var k :| 0 <= k < |s.versions| && s.versions[k] == l;
  }

  lemma AddGarageKeeps(s: Store, g: Garage)
    requires Kept(s) && StoreGarage(s, g).Ok?
    ensures Kept(StoreGarage(s, g).value)
  {
    hide Places, Latest, HomeFirst, InOrder, Canonical, Names;
    var after := StoreGarage(s, g).value;
    forall p | p in after.rows ensures RowInStep(after, p) {
      assert RowInStep(s, p);
      var l := Latest(s.versions, s.rows[p]).value;
      CoveredAreKnown(s, s.rows[p]);
      AddingKeepsForms(s.garages, g, HomeFirst(l), l.vehicles, p);
    }
    forall id: AgreementId ensures ListHeld(after, id) {
      assert ListHeld(s, id);
      if Latest(s.versions, id).Some? {
        var l := Latest(s.versions, id).value;
        CoveredAreKnown(s, id);
        forall p
          ensures p in Places(after.garages, HomeFirst(l), l.vehicles)
                  <==> p in Places(s.garages, HomeFirst(l), l.vehicles)
        {
          AddingKeepsForms(s.garages, g, HomeFirst(l), l.vehicles, p);
        }
      }
    }
  }

  /** Over any run of garages added, saves, door registrations and door releases: every row is in its garage's form
      and at a garage its holder's latest version covers; a self-registered agreement's rows are on its list, and are
      the whole list while it is active; versions go up, and home, registrar and payer never change. */
  lemma {:induction false} RegisterOverARun(s: Store, calls: seq<Call>)
    requires Kept(s)
    ensures Kept(Run(s, calls))
    ensures forall g :: g in s.garages ==> g in Run(s, calls).garages && Run(s, calls).garages[g] == s.garages[g]
  {
    hide Kept;
    if calls != [] {
      var before, c := Run(s, calls[..|calls| - 1]), calls[|calls| - 1];
      RegisterOverARun(s, calls[..|calls| - 1]);
      if Post(before, c).Ok? {
        match c {
          case AddGarage(g) => AddGarageKeeps(before, g);
          case SaveVersion(home, a, paid, now) =>
            if a.registrar.Outside? {
              OutsideSaveKeeps(before, home, a, paid, now);
            } else {
              OwnSaveKeeps(before, home, a, paid, now);
            }
          case RegisterAtTheDoor(id, text, now) => DoorRegisterKeeps(before, id, text, now);
          case ReleaseAtTheDoor(id, text, named) => DoorReleaseKeeps(before, id, text, named);
        }
      }
    }
  }

  /** The agreement a call is about, if it is about one. */
  function CallerOf(c: Call): Option<AgreementId> {
    match c
    case AddGarage(_) => None
    case SaveVersion(_, a, _, _) => Some(a.id)
    case RegisterAtTheDoor(id, _, _) => Some(id)
    case ReleaseAtTheDoor(id, _, _) => Some(id)
  }

  /** No call touches another agreement's row but to take it over, and only from one that is cancelled and whose
      day has come at that garage by the instant of the call. */
  lemma RowsPassOnlyFromTheCancelled(s: Store, c: Call, p: Place)
    requires p in s.rows && Some(s.rows[p]) != CallerOf(c)
    ensures var after, holder := After(s, c).rows, Latest(s.versions, s.rows[p]);
            p in after
            && (after[p] != s.rows[p] ==>
                  Some(after[p]) == CallerOf(c) && (c.SaveVersion? || c.RegisterAtTheDoor?)
                  && holder.Some? && holder.value.status == Cancelled && holder.value.cancelledDay.Some?
                  && p.garage in s.garages
                  && holder.value.cancelledDay.value <= s.garages[p.garage].zone.local(c.now).day)
  {
    hide Places, PlanRefusal, Accepted, RefusalOfVersion, Latest, Ambiguous, FormAt, ListsTwice, HomeFirst;
    match c {
      case SaveVersion(_, a, _, now) => PlanPasses(s, a.id, HomeFirst(a), a.vehicles, now);
      case RegisterAtTheDoor(id, text, now) =>
        if Latest(s.versions, id).Some? {
          PlanPasses(s, id, HomeFirst(Latest(s.versions, id).value), [text], now);
        }
      case ReleaseAtTheDoor(id, text, named) =>
        if Latest(s.versions, id).Some? {
          assert p !in Named(s, id, text, Reached(Latest(s.versions, id).value, named));
        }
      case AddGarage(_) =>
    }
  }

  const EMPTY := Store(map[], [], map[])

  /** So every store the calls can reach from an empty one is kept. */
  lemma EveryReachableStoreIsKept(calls: seq<Call>)
    ensures Kept(Run(EMPTY, calls))
  {
    AnEmptyStoreIsKept();
    RegisterOverARun(EMPTY, calls);
  }

  lemma AnEmptyStoreIsKept()
    ensures Kept(EMPTY)
  {}

  /** As long as a day is in a period paid at each save of the agreement, no version stored from then on
      pauses it unless the version stored before the first of them did. */
  lemma {:induction false} PaidDaysAreNotNewlyPaused(s: Store, calls: seq<Call>, id: AgreementId, day: Day)
    requires Kept(s) && Latest(s.versions, id).Some?
    requires forall c :: c in calls && c.SaveVersion? && c.agreement.id == id ==> InPaid(c.paid, day)
    ensures var l := Latest(Run(s, calls).versions, id);
            l.Some? && (PausedOn(l.value.pauses, day) ==> PausedOn(Latest(s.versions, id).value.pauses, day))
            && l.value.version >= Latest(s.versions, id).value.version
  {
    hide Kept, InPaid, PausedOn, After, RefusalOfVersion, Latest;
    if calls != [] {
      var front, c := calls[..|calls| - 1], calls[|calls| - 1];
      assert calls == front + [c];
      PaidDaysAreNotNewlyPaused(s, front, id, day);
      RegisterOverARun(s, front);
      var before := Run(s, front);
      VersionsAfter(before, c, id);
      if Post(before, c).Ok? && c.SaveVersion? && c.agreement.id == id {
        NotNewlyPaused(Latest(before.versions, id).value, c.agreement, c.paid, day);
      }
    }
  }

  lemma VersionsAfter(s: Store, c: Call, id: AgreementId)
    ensures Latest(After(s, c).versions, id)
            == (if c.SaveVersion? && Post(s, c).Ok? && id == c.agreement.id then Some(c.agreement)
                else Latest(s.versions, id))
    ensures c.SaveVersion? && Post(s, c).Ok? && Latest(s.versions, c.agreement.id).Some? ==>
              RefusalOfVersion(Latest(s.versions, c.agreement.id).value, c.agreement, c.paid).None?
  {
    hide Accepted, PausesPaidDays, PlanRefusal, Places, Latest;
    if c.SaveVersion? && Post(s, c).Ok? {
      LatestAfter(s.versions, c.agreement, id);
    }
  }

  lemma NotNewlyPaused(newest: Agreement, a: Agreement, paid: seq<Period>, day: Day)
    requires RefusalOfVersion(newest, a, paid).None? && InPaid(paid, day)
    ensures PausedOn(a.pauses, day) ==> PausedOn(newest.pauses, day)
    ensures newest.version < a.version
  {}
}
