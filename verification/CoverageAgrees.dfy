/** That the three ways of asking are one answer: over every store the register's calls can reach, the store-backed
    call of `entitlement_store.py`, the pure call of `entitlement.py` over all the documents, and a reader of the
    garage register published by `store/records.py`. */
module CoverageAgrees {
  import opened Calendar
  import opened Garages
  import opened Agreements
  import opened Register
  import opened Coverage
  import opened Options

  lemma GaragesAreUnderTheirIds(s: Store)
    requires Kept(s)
    ensures forall g :: g in s.garages ==> s.garages[g].id == g
  {}

  /** What the register states at one garage, each agreement's forms in any order. */
  ghost predicate States(registrations: map<AgreementId, seq<string>>, s: Store, garage: GarageId) {
    forall id: AgreementId, f: string :: (id in registrations && f in registrations[id])
                                         <==> Holds(s.rows, id, Place(garage, f))
  }

  /** The agreement's latest version covers the garage and its register there has the form. */
  ghost predicate Claims(s: Store, id: AgreementId, p: Place) {
    var l := Latest(s.versions, id);
    l.Some? && p.garage in l.value.covered
    && (if l.value.registrar.ThisModule? then Names(s.garages, l.value.vehicles, p) else Holds(s.rows, id, p))
  }

  /** A list that still names a vehicle whose row is no longer the agreement's. */
  ghost predicate StaleClaim(s: Store, p: Place) {
    exists id: AgreementId :: Claims(s, id, p) && !Holds(s.rows, id, p)
  }

  /** Only a cancelled agreement's list can be stale: its row was there for another to take. */
  lemma OnlyCancelledListsAreStale(s: Store, id: AgreementId, p: Place)
    requires Kept(s) && Claims(s, id, p) && !Holds(s.rows, id, p)
    ensures Latest(s.versions, id).value.status.Cancelled?
  {
    hide Places, Names, FormAt, HomeFirst;
    assert ListHeld(s, id);
    var l := Latest(s.versions, id).value;
    LatestIsAccepted(s, id);
    HomeFirstKeeps(l);
    PlacesAre(s.garages, HomeFirst(l), l.vehicles, p);
  }

  lemma HoldersClaim(s: Store, p: Place)
    requires Kept(s) && p in s.rows
    ensures Claims(s, s.rows[p], p)
  {
    hide Places, Names, FormAt, HomeFirst, Canonical;
    assert RowInStep(s, p);
    var l := Latest(s.versions, s.rows[p]).value;
    PlacesAre(s.garages, HomeFirst(l), l.vehicles, p);
  }

  // ---------------------------------------------------------------- which agreement has the vehicle

  lemma {:induction false} WalkMatches(rule: IdentityRule, register: seq<string>, identity: string, form: string)
    requires Normalise(rule, identity) == Some(form)
    requires forall j :: 0 <= j < |register| ==> Normalise(rule, register[j]).Some?
    ensures AnyMatch(rule, register, identity)
            == Ok(exists j :: 0 <= j < |register| && Normalise(rule, register[j]) == Some(form))
  {
    if register != [] {
      WalkMatches(rule, register[1..], identity, form);
      if j :| 0 <= j < |register| - 1 && Normalise(rule, register[1..][j]) == Some(form) {
        assert Normalise(rule, register[j + 1]) == Some(form);
      }
      if j :| 0 <= j < |register| && Normalise(rule, register[j]) == Some(form) && j > 0 {
        assert register[1..][j - 1] == register[j];
      }
    }
  }

  /** The walk over an agreement's register never stops on a malformed text, and finds what the register says. */
  lemma BelongsIs(s: Store, g: GarageId, id: AgreementId, identity: string, form: string,
                  registrations: map<AgreementId, seq<string>>)
    requires Kept(s) && g in s.garages && FormAt(s.garages, g, identity) == Some(form)
    requires Latest(s.versions, id).Some? && g in Latest(s.versions, id).value.covered
    ensures (forall f: string :: id in registrations && f in registrations[id] ==> Holds(s.rows, id, Place(g, f)))
            && (Holds(s.rows, id, Place(g, form)) ==> id in registrations && form in registrations[id])
            ==> Belongs(s.garages[g], Latest(s.versions, id).value, identity, Some(registrations))
                == Ok(Claims(s, id, Place(g, form)))
  {
    hide Normalise, Places, Latest, HomeFirst;
    var l, rule := Latest(s.versions, id).value, s.garages[g].rule;
    LatestIsAccepted(s, id);
    HomeFirstKeeps(l);
    if l.registrar.ThisModule? {
      assert ListHeld(s, id);
      forall j | 0 <= j < |l.vehicles| ensures Normalise(rule, l.vehicles[j]).Some? {
        assert FormAt(s.garages, g, l.vehicles[j]).Some?;
      }
      WalkMatches(rule, l.vehicles, identity, form);
      if j :| 0 <= j < |l.vehicles| && Normalise(rule, l.vehicles[j]) == Some(form) {
        assert FormAt(s.garages, g, l.vehicles[j]) == Some(form);
      }
    } else if forall f: string :: id in registrations && f in registrations[id] ==> Holds(s.rows, id, Place(g, f)) {
      var register := if id in registrations then registrations[id] else [];
      forall j | 0 <= j < |register| ensures Normalise(rule, register[j]) == Some(register[j]) {
        assert register[j] in registrations[id];
        assert RowInStep(s, Place(g, register[j]));
      }
      WalkMatches(rule, register, identity, form);
    }
  }

  /** What the walk over all the documents finds: one latest version per agreement that claims the vehicle. */
  lemma {:induction false} MineFinds(s: Store, g: GarageId, ids: seq<AgreementId>, identity: string, form: string,
                                     registrations: map<AgreementId, seq<string>>)
    requires Kept(s) && g in s.garages && FormAt(s.garages, g, identity) == Some(form)
    requires States(registrations, s, g) && NoRepeats(ids)
    ensures var mine := Mine(s.garages[g], s.versions, ids, identity, Some(registrations));
            mine.Ok?
            && (forall k :: 0 <= k < |mine.value| ==>
                  mine.value[k].id in ids && Claims(s, mine.value[k].id, Place(g, form))
                  && Latest(s.versions, mine.value[k].id) == Some(mine.value[k]))
            && (forall i, j :: 0 <= i < j < |mine.value| ==> mine.value[i].id != mine.value[j].id)
            && (forall id :: id in ids && Claims(s, id, Place(g, form)) ==>
                               exists k :: 0 <= k < |mine.value| && mine.value[k].id == id)
  {
    hide Kept, Belongs, Claims, FormAt, Latest;
    GaragesAreUnderTheirIds(s);
    if ids != [] {
      var front, id := ids[..|ids| - 1], ids[|ids| - 1];
      assert ids == front + [id];
      MineFinds(s, g, front, identity, form, registrations);
      var found := Mine(s.garages[g], s.versions, front, identity, Some(registrations)).value;
      ClaimsNeedCover(s, id, Place(g, form));
      if Latest(s.versions, id).Some? && g in Latest(s.versions, id).value.covered {
        BelongsIs(s, g, id, identity, form, registrations);
        if Claims(s, id, Place(g, form)) {
          assert (found + [Latest(s.versions, id).value])[|found|].id == id;
        }
      }
      forall k | k in front && Claims(s, k, Place(g, form))
        ensures exists i :: 0 <= i < |Mine(s.garages[g], s.versions, ids, identity, Some(registrations)).value|
                            && Mine(s.garages[g], s.versions, ids, identity, Some(registrations)).value[i].id == k {
        var i :| 0 <= i < |found| && found[i].id == k;
        assert Mine(s.garages[g], s.versions, ids, identity, Some(registrations)).value[i].id == k;
      }
    }
  }

  lemma ClaimsNeedCover(s: Store, id: AgreementId, p: Place)
    ensures Claims(s, id, p) ==> Latest(s.versions, id).Some? && p.garage in Latest(s.versions, id).value.covered
  {}

  lemma {:induction false} FirstSeenAreTheIds(versions: seq<Agreement>)
    ensures NoRepeats(FirstSeen(versions))
    ensures forall id: AgreementId :: id in FirstSeen(versions) <==> Latest(versions, id).Some?
  {
    if versions != [] {
      FirstSeenAreTheIds(versions[..|versions| - 1]);
    }
  }

  // ---------------------------------------------------------------- the store-backed call

  /** What the store knows beside the register, of the agreement a row names. */
  function HolderStanding(s: Store, accounts: Accounts, p: Place): Standing {
    if p !in s.rows || Latest(s.versions, s.rows[p]).None? || Latest(s.versions, s.rows[p]).value.garage !in s.garages
    then Standing(None, false, None)
    else StandingOf(s, accounts, Latest(s.versions, s.rows[p]).value)
  }

  lemma OneAgreementAsked(g: Garage, a: Agreement, identity: string, at: Instant, enteredAt: Option<Instant>,
                          standing: Standing, registrations: map<AgreementId, seq<string>>)
    requires a.CoversGarage(g.id) && Belongs(g, a, identity, Some(registrations)) == Ok(true)
    ensures IsCovered(g, [a], identity, at, enteredAt, standing, Some(registrations))
            == Judge(g, a, at, enteredAt, standing)
  {
    hide Judge, Belongs;
    assert [a][..0] == [] && [a.id][..0] == [];
    assert Latest([a], a.id) == Some(a);
    assert FirstSeen([a]) == [a.id];
    assert Mine(g, [a], [a.id][..0], identity, Some(registrations)) == Ok([]);
    assert Mine(g, [a], [a.id], identity, Some(registrations)) == Ok([] + [a]);
  }

  /** The call is the judgement of the row's holder; of nobody, where there is no row. */
  lemma StoreCallJudgesTheHolder(s: Store, accounts: Accounts, garage: GarageId, identity: string, at: Instant,
                                 enteredAt: Option<Instant>)
    requires Kept(s) && garage in s.garages && FormAt(s.garages, garage, identity).Some?
    ensures var p := Place(garage, FormAt(s.garages, garage, identity).value);
            CoveredFromStore(s, accounts, garage, identity, at, enteredAt)
            == if p !in s.rows then Ok(NotCovered(NoAgreement, None))
               else if Latest(s.versions, s.rows[p]).None? then Refused(Fault.GarageNotFound)
               else Judge(s.garages[garage], Latest(s.versions, s.rows[p]).value, at, enteredAt,
                          HolderStanding(s, accounts, p))
    ensures var p := Place(garage, FormAt(s.garages, garage, identity).value);
            p in s.rows ==> HolderKnown(s, p)
  {
    hide Judge, Belongs, Places, Canonical, FormAt, HomeFirst, Latest, ListHeld, StandingOf;
    var form := FormAt(s.garages, garage, identity).value;
    var p := Place(garage, form);
    if p in s.rows {
      var holder := s.rows[p];
      HoldersClaim(s, p);
      HolderIsKnown(s, p);
      BelongsIs(s, garage, holder, identity, form, map[holder := [form]]);
      OneAgreementAsked(s.garages[garage], Latest(s.versions, holder).value, identity, at, enteredAt,
                        HolderStanding(s, accounts, p), map[holder := [form]]);
    }
  }

  ghost predicate HolderKnown(s: Store, p: Place)
    requires p in s.rows
  {
    var l := Latest(s.versions, s.rows[p]);
    l.Some? && l.value.id == s.rows[p] && p.garage in l.value.covered && l.value.garage in s.garages
  }

  lemma HolderIsKnown(s: Store, p: Place)
    requires Kept(s) && p in s.rows
    ensures HolderKnown(s, p)
  {
    hide Places, Canonical, FormAt, HomeFirst, ListHeld;
    assert RowInStep(s, p);
    var l := Latest(s.versions, s.rows[p]).value;
    LatestIsAccepted(s, l.id);
    var k :| 0 <= k < |s.versions| && s.versions[k] == l;
    assert l.garage in s.versions[k].covered;
  }

  lemma JudgedAtItsHome(g: Garage, a: Agreement, at: Instant, enteredAt: Option<Instant>, standing: Standing)
    requires standing.home.Some? && standing.home.value.id == a.garage
    ensures Judge(g, a, at, enteredAt, standing).Ok?
    ensures var v := Judge(g, a, at, enteredAt, standing).value;
            if v.NotCovered? then v.cited == Some(Cited(a.id, a.version)) else v.who == Cited(a.id, a.version)
  {}

  /** In every reachable store the call refuses nothing but a garage it does not hold and a text that comes to
      nothing: never two agreements, never registrations not given, never a home not given. */
  lemma StoreCallNeverRefuses(s: Store, accounts: Accounts, garage: GarageId, identity: string, at: Instant,
                              enteredAt: Option<Instant>)
    requires Kept(s)
    ensures var answer := CoveredFromStore(s, accounts, garage, identity, at, enteredAt);
            (answer.Refused? <==> garage !in s.garages || FormAt(s.garages, garage, identity).None?)
            && (garage !in s.garages ==> answer == Refused(Fault.GarageNotFound))
            && (garage in s.garages && answer.Refused? ==> answer == Refused(Fault.IdentityEmpty))
  {
    if garage in s.garages && FormAt(s.garages, garage, identity).Some? {
      hide Judge, Kept, CoveredFromStore;
      StoreCallJudgesTheHolder(s, accounts, garage, identity, at, enteredAt);
      var p := Place(garage, FormAt(s.garages, garage, identity).value);
      if p in s.rows {
        JudgedAtItsHome(s.garages[garage], Latest(s.versions, s.rows[p]).value, at, enteredAt,
                        HolderStanding(s, accounts, p));
      }
    }
  }

  // ---------------------------------------------------------------- and the pure call over every document

  /** The pure call over every version stored, with the register stated, and the holder's standing. */
  function PureCall(s: Store, accounts: Accounts, p: Place, identity: string, at: Instant, enteredAt: Option<Instant>,
                    registrations: map<AgreementId, seq<string>>): Answer
    requires p.garage in s.garages
  {
    IsCovered(s.garages[p.garage], s.versions, identity, at, enteredAt, HolderStanding(s, accounts, p),
              Some(registrations))
  }

  /** The agreements the pure call finds, as the claims on the place. */
  lemma PureCallFinds(s: Store, p: Place, identity: string, registrations: map<AgreementId, seq<string>>)
    returns (mine: seq<Agreement>)
    requires Kept(s) && p.garage in s.garages && FormAt(s.garages, p.garage, identity) == Some(p.form)
    requires States(registrations, s, p.garage)
    ensures Mine(s.garages[p.garage], s.versions, FirstSeen(s.versions), identity, Some(registrations)) == Ok(mine)
    ensures forall k :: 0 <= k < |mine| ==> Claims(s, mine[k].id, p) && Latest(s.versions, mine[k].id) == Some(mine[k])
    ensures forall i, j :: 0 <= i < j < |mine| ==> mine[i].id != mine[j].id
    ensures forall id: AgreementId :: Claims(s, id, p) ==> exists k :: 0 <= k < |mine| && mine[k].id == id
  {
    hide Kept, States, Claims, FormAt, Latest, Mine, FirstSeen;
    FirstSeenAreTheIds(s.versions);
    MineFinds(s, p.garage, FirstSeen(s.versions), identity, p.form, registrations);
    mine := Mine(s.garages[p.garage], s.versions, FirstSeen(s.versions), identity, Some(registrations)).value;
    forall id: AgreementId | Claims(s, id, p) ensures exists k :: 0 <= k < |mine| && mine[k].id == id {
      ClaimsNeedCover(s, id, p);
    }
  }

  /** The pure call over every document gives the store-backed answer exactly when no cancelled agreement's list
      still names a plate it no longer has. */
  lemma PureCallAgrees(s: Store, accounts: Accounts, garage: GarageId, identity: string, at: Instant,
                       enteredAt: Option<Instant>, registrations: map<AgreementId, seq<string>>)
    requires Kept(s) && garage in s.garages && FormAt(s.garages, garage, identity).Some?
    requires States(registrations, s, garage)
    ensures var p := Place(garage, FormAt(s.garages, garage, identity).value);
            PureCall(s, accounts, p, identity, at, enteredAt, registrations)
            == CoveredFromStore(s, accounts, garage, identity, at, enteredAt)
            <==> !StaleClaim(s, p)
  {
    hide Kept, States, Claims, FormAt, Latest, Mine, FirstSeen, Judge, CoveredFromStore;
    GaragesAreUnderTheirIds(s);
    var p := Place(garage, FormAt(s.garages, garage, identity).value);
    var mine := PureCallFinds(s, p, identity, registrations);
    StoreCallJudgesTheHolder(s, accounts, garage, identity, at, enteredAt);
    if p in s.rows {
      HoldersClaim(s, p);
      JudgedAtItsHome(s.garages[garage], Latest(s.versions, s.rows[p]).value, at, enteredAt,
                      HolderStanding(s, accounts, p));
    }
    if StaleClaim(s, p) {
      var id: AgreementId :| Claims(s, id, p) && !Holds(s.rows, id, p);
      if |mine| == 1 {
        NobodysStanding(s.garages[garage], mine[0], at, enteredAt);
      }
    } else {
      forall k | 0 <= k < |mine| ensures Holds(s.rows, mine[k].id, p) {
        assert Claims(s, mine[k].id, p);
      }
      AllHeldByOne(s, p, mine);
    }
  }

  lemma AllHeldByOne(s: Store, p: Place, mine: seq<Agreement>)
    requires forall k :: 0 <= k < |mine| ==> Holds(s.rows, mine[k].id, p)
    ensures |mine| > 1 ==> mine[0].id == mine[1].id
  {}

  /** With nothing known of its standing an agreement is still cited. */
  lemma NobodysStanding(g: Garage, a: Agreement, at: Instant, enteredAt: Option<Instant>)
    ensures Judge(g, a, at, enteredAt, Standing(None, false, None)) != Ok(NotCovered(NoAgreement, None))
  {}

  // ---------------------------------------------------------------- and a reader of the published register

  /** One agreement of `show_garage_register`: its latest version's days, and the money side turned into days. */
  datatype Published = Published(version: int, status: Status, cancelledDay: Option<Day>, startDay: Day,
                                 pauses: seq<Pause>, blocked: bool, notCoveredFrom: Option<Day>)

  datatype GarageRegister = GarageRegister(registrations: map<string, AgreementId>,
                                           agreements: map<AgreementId, Published>, notCovering: set<AgreementId>)

  /** The smallest `period_start_day` among the unpaid. */
  function EarliestUnpaidDay(bills: seq<Bill>, payer: PayerId, home: GarageId): Option<Day> {
    if bills == [] then None
    else
      var front, last := EarliestUnpaidDay(bills[..|bills| - 1], payer, home), bills[|bills| - 1];
      if !Unpaid(last, payer, home) then front
      else if front.Some? && front.value <= last.periodStart then front
      else Some(last.periodStart)
  }

  /** `_coverage_days`: no zone, no instant -- the first day past grace is the due day, the grace and one. */
  function CoverageDays(s: Store, accounts: Accounts, a: Agreement): Published
    requires a.garage in s.garages
  {
    var decisions := DecisionsFor(accounts, accounts.decisions, a.id, a.payer, a.garage);
    var due := EarliestUnpaidDay(accounts.bills, a.payer, a.garage);
    var grace := AppliedGraceDays(s.garages[a.garage].graceDays, decisions);
    Published(a.version, a.status, a.cancelledDay, a.startDay, a.pauses, IsBlocked(decisions),
              if due.None? then None else Some(due.value + grace + 1))
  }

  /** `show_garage_register`: rows selected by the garage alone, and every agreement they name. */
  function ShowGarageRegister(s: Store, accounts: Accounts, garage: GarageId): GarageRegister {
    var named := set p | p in s.rows && p.garage == garage :: s.rows[p];
    GarageRegister(
      map p | p in s.rows && p.garage == garage :: p.form := s.rows[p],
      map id | id in named && Latest(s.versions, id).Some? && Latest(s.versions, id).value.garage in s.garages
        :: CoverageDays(s, accounts, Latest(s.versions, id).value),
      set id | id in named && Latest(s.versions, id).Some? && garage !in Latest(s.versions, id).value.covered)
  }

  /** A reader who has only what is published, the day it is at the garage and the day it is at the home. */
  function ReadersReason(r: GarageRegister, form: string, today: Day, homeToday: Day): Option<Reason> {
    if form !in r.registrations || r.registrations[form] !in r.agreements || r.registrations[form] in r.notCovering then
      Some(NoAgreement)
    else
      var a := r.agreements[r.registrations[form]];
      if today < a.startDay then Some(NotStarted)
      else if a.status.Cancelled? && a.cancelledDay.Some? && today >= a.cancelledDay.value then Some(CancelledByNow)
      else if PausedOn(a.pauses, today) then Some(PausedToday)
      else if a.blocked then Some(BlockedByOwner)
      else if a.notCoveredFrom.Some? && homeToday >= a.notCoveredFrom.value then Some(UnpaidPastGrace)
      else None
  }

  function ReasonOf(v: Verdict): Option<Reason> {
    if v.NotCovered? then Some(v.reason) else None
  }

  /** Every invoice of a garage falls due as its period starts there. */
  ghost predicate DueAtTheStart(s: Store, accounts: Accounts) {
    (forall g :: g in s.garages ==> ZoneLaws(s.garages[g].zone))
    && forall i :: 0 <= i < |accounts.bills| && accounts.bills[i].garage in s.garages ==>
         accounts.bills[i].dueAt == s.garages[accounts.bills[i].garage].zone.dayStart(accounts.bills[i].periodStart)
  }

  /** The earliest due instant falls on the earliest due day, since day starts ascend. */
  lemma {:induction false} EarliestFallsOnItsDay(bills: seq<Bill>, payer: PayerId, home: GarageId, z: Zone)
    requires ZoneLaws(z) && forall i :: 0 <= i < |bills| && bills[i].garage == home ==>
                                          bills[i].dueAt == z.dayStart(bills[i].periodStart)
    ensures EarliestUnpaid(bills, payer, home)
            == match EarliestUnpaidDay(bills, payer, home) case None => None case Some(day) => Some(z.dayStart(day))
  {
    if bills != [] {
      EarliestFallsOnItsDay(bills[..|bills| - 1], payer, home, z);
    }
  }

  /** The reader's reason, from the published register and what day it is at the garage and at the home. */
  function PublishedReason(s: Store, accounts: Accounts, p: Place, at: Instant): Option<Reason>
    requires p.garage in s.garages
  {
    var asking, standing := s.garages[p.garage], HolderStanding(s, accounts, p);
    var home := if standing.home.Some? then standing.home.value else asking;
    ReadersReason(ShowGarageRegister(s, accounts, p.garage), p.form, asking.zone.DayOf(at), home.zone.DayOf(at))
  }

  /** The store answers, and the reader's reason is its reason -- or none, where only the hours were against it. */
  predicate ReadersAgree(s: Store, accounts: Accounts, garage: GarageId, identity: string, at: Instant,
                         enteredAt: Option<Instant>)
    requires garage in s.garages && FormAt(s.garages, garage, identity).Some?
  {
    var reader := PublishedReason(s, accounts, Place(garage, FormAt(s.garages, garage, identity).value), at);
    var answer := CoveredFromStore(s, accounts, garage, identity, at, enteredAt);
    answer.Ok?
    && reader == (if ReasonOf(answer.value) == Some(OutsideAccessHours) then None else ReasonOf(answer.value))
  }

  /** For every reachable store, vehicle and instant: a reader of the published register gives the store-backed
      answer and its reason, but for access hours, which are not published. */
  lemma PublishedRegisterAgrees(s: Store, accounts: Accounts, garage: GarageId, identity: string, at: Instant,
                                enteredAt: Option<Instant>)
    requires Kept(s) && DueAtTheStart(s, accounts)
    requires garage in s.garages && FormAt(s.garages, garage, identity).Some?
    ensures ReadersAgree(s, accounts, garage, identity, at, enteredAt)
  {
    hide Kept, FormAt, Latest, CoveredFromStore, DecisionsFor, AppliedGraceDays, IsBlocked, EarliestUnpaid,
         EarliestUnpaidDay;
    GaragesAreUnderTheirIds(s);
    var p := Place(garage, FormAt(s.garages, garage, identity).value);
    StoreCallJudgesTheHolder(s, accounts, garage, identity, at, enteredAt);
    if p in s.rows {
      var a := Latest(s.versions, s.rows[p]).value;
      EarliestFallsOnItsDay(accounts.bills, a.payer, a.garage, s.garages[a.garage].zone);
      assert p.form in ShowGarageRegister(s, accounts, garage).registrations;
    }
  }
}
