/** The coverage answer in full, in the fields of the documents, the garage, the register and the accounts: which
    question is answered how, of the documents by `entitlement.py` and of the store by `entitlement_store.py`. */
module CoverageAnswers {
  import opened Calendar
  import opened Garages
  import opened Agreements
  import Ledger
  import opened Register
  import opened Coverage
  import opened CoverageAgrees
  import opened Options

  // ---------------------------------------------------------------- when and why

  /** Nothing but the hours stands against a stay: the agreement has started, is not cancelled by the day or paused on
      it, nobody has blocked it, and nothing of its payer's is unpaid past the grace of its home. */
  predicate InGoodStanding(g: Garage, a: Agreement, at: Instant, standing: Standing) {
    var today := g.zone.local(at).day;
    a.startDay <= today
    && !(a.status == Cancelled && a.cancelledDay.Some? && a.cancelledDay.value <= today)
    && !PausedOn(a.pauses, today) && !standing.blocked && !PastGrace(g, a, at, standing)
  }

  /** The garage whose clock and grace an unpaid invoice is judged by: the home, or the garage asked at where that is
      the home and no other is given. */
  function HomeAsked(g: Garage, standing: Standing): Garage {
    if standing.home.Some? then standing.home.value else g
  }

  /** More days of the home's calendar have gone by since the earliest unpaid invoice fell due than the grace allows. */
  predicate PastGrace(g: Garage, a: Agreement, at: Instant, standing: Standing) {
    var home := HomeAsked(g, standing);
    standing.unpaidSince.Some?
    && home.zone.local(at).day - home.zone.local(standing.unpaidSince.value).day > home.graceDays
  }

  predicate HomeGiven(g: Garage, a: Agreement, standing: Standing) {
    HomeAsked(g, standing).id == a.garage
  }

  /** The hours are against it: come too early, or, if it has come, stayed past the limit of its own night. */
  predicate OutsideHours(g: Garage, hours: AccessHours, at: Instant, enteredAt: Option<Instant>) {
    match enteredAt
    case None => g.zone.local(at).time < hours.entryFrom
    case Some(entered) =>
      var come, left := g.zone.local(entered), g.zone.local(at);
      var lastDay := if hours.exitBy < hours.entryFrom then come.day + 1 else come.day;
      come.time < hours.entryFrom || left.day > lastDay || (left.day == lastDay && left.time > hours.exitBy)
  }

  /** The answer about one agreement, whatever its standing: the first of these that is so is the reason, and where none
      is it is covered -- for its spots, and with the exit still to be checked where it has hours and has only come. */
  lemma TheJudgementIs(g: Garage, a: Agreement, at: Instant, enteredAt: Option<Instant>, standing: Standing)
    ensures var answer, who := Judge(g, a, at, enteredAt, standing), Cited(a.id, a.version);
            var today := g.zone.local(at).day;
            if today < a.startDay then answer == Ok(NotCovered(NotStarted, Some(who)))
            else if a.status == Cancelled && a.cancelledDay.Some? && a.cancelledDay.value <= today
            then answer == Ok(NotCovered(CancelledByNow, Some(who)))
            else if PausedOn(a.pauses, today) then answer == Ok(NotCovered(PausedToday, Some(who)))
            else if standing.blocked then answer == Ok(NotCovered(BlockedByOwner, Some(who)))
            else if standing.unpaidSince.Some? && !HomeGiven(g, a, standing) then answer == Refused(HomeGarageNotGiven)
            else if PastGrace(g, a, at, standing) then answer == Ok(NotCovered(UnpaidPastGrace, Some(who)))
            else if a.hours.Some? && OutsideHours(g, a.hours.value, at, enteredAt)
            then answer == Ok(NotCovered(OutsideAccessHours, Some(who)))
            else answer == Ok(Covered(a.spots, who, a.hours.Some? && enteredAt == None))
  {
    hide PausedOn;
  }

  /** Asked on arrival: an agreement in good standing is covered iff it has no hours or the garage's clock is at or past
      the hour from which a stay may begin, and otherwise the hours are the reason. Its exit is unchecked iff it has
      hours. This is of one document. */
  lemma OnArrivalByDocument(g: Garage, a: Agreement, identity: string, at: Instant, standing: Standing,
                            registrations: map<AgreementId, seq<string>>)
    requires a.CoversGarage(g.id) && Belongs(g, a, identity, Some(registrations)) == Ok(true)
    requires InGoodStanding(g, a, at, standing) && (standing.unpaidSince.Some? ==> HomeGiven(g, a, standing))
    ensures IsCovered(g, [a], identity, at, None, standing, Some(registrations))
            == if a.hours == None then Ok(Covered(a.spots, Cited(a.id, a.version), false))
               else if g.zone.local(at).time >= a.hours.value.entryFrom
               then Ok(Covered(a.spots, Cited(a.id, a.version), true))
               else Ok(NotCovered(OutsideAccessHours, Some(Cited(a.id, a.version))))
  {
    hide Judge, IsCovered, PausedOn;
    OneAgreementAsked(g, a, identity, at, None, standing, registrations);
    TheJudgementIs(g, a, at, None, standing);
  }

  /** And this of the store, whose row says whose the vehicle is. */
  lemma OnArrivalByTheStore(s: Store, accounts: Accounts, garage: GarageId, identity: string, at: Instant)
    requires Kept(s) && garage in s.garages && FormAt(s.garages, garage, identity).Some?
    requires var p := Place(garage, FormAt(s.garages, garage, identity).value);
             p in s.rows && Latest(s.versions, s.rows[p]).Some?
             && InGoodStanding(s.garages[garage], Latest(s.versions, s.rows[p]).value, at,
                               HolderStanding(s, accounts, p))
    ensures var p := Place(garage, FormAt(s.garages, garage, identity).value);
            var g, a := s.garages[garage], Latest(s.versions, s.rows[p]).value;
            CoveredFromStore(s, accounts, garage, identity, at, None)
            == if a.hours == None then Ok(Covered(a.spots, Cited(a.id, a.version), false))
               else if g.zone.local(at).time >= a.hours.value.entryFrom
               then Ok(Covered(a.spots, Cited(a.id, a.version), true))
               else Ok(NotCovered(OutsideAccessHours, Some(Cited(a.id, a.version))))
  {
    hide Judge, CoveredFromStore, PausedOn, FormAt, Latest, Kept;
    var p := Place(garage, FormAt(s.garages, garage, identity).value);
    StoreCallJudgesTheHolder(s, accounts, garage, identity, at, None);
    GaragesAreUnderTheirIds(s);
    TheJudgementIs(s.garages[garage], Latest(s.versions, s.rows[p]).value, at, None, HolderStanding(s, accounts, p));
  }

  // ---------------------------------------------------------------- what the store knows of the holder

  predicate IsOwedBy(b: Bill, a: Agreement) {
    b.payer == a.payer && b.garage == a.garage && b.paid == false
  }

  /** The standing the store reads for an agreement: the earliest due instant among its payer's unpaid invoices at its
      home; its home's own clock, and that garage's grace with what the owner has added to it. */
  lemma TheStandingIs(s: Store, accounts: Accounts, a: Agreement)
    requires a.garage in s.garages
    ensures var standing := StandingOf(s, accounts, a);
            (standing.unpaidSince.None? <==> forall b :: b in accounts.bills ==> !IsOwedBy(b, a))
            && (standing.unpaidSince.Some? ==>
                  (exists b :: b in accounts.bills && IsOwedBy(b, a) && b.dueAt == standing.unpaidSince.value)
                  && forall b :: b in accounts.bills && IsOwedBy(b, a) ==> standing.unpaidSince.value <= b.dueAt)
    ensures var standing, home := StandingOf(s, accounts, a), s.garages[a.garage];
            var decisions := DecisionsFor(accounts, accounts.decisions, a.id, a.payer, a.garage);
            standing.home == Some(home.(graceDays := AppliedGraceDays(home.graceDays, decisions)))
            && (standing.blocked <==> exists i: nat :: IsLastWord(decisions, i) && decisions[i].kind == Ledger.Block)
  {
    hide DecisionsFor, AppliedGraceDays, EarliestUnpaid, IsBlocked, LastWord;
    EarliestUnpaidIsFirst(accounts.bills, a.payer, a.garage);
    var decisions := DecisionsFor(accounts, accounts.decisions, a.id, a.payer, a.garage);
    BlockedByTheLastWord(decisions);
    forall i | 0 <= i < |accounts.bills| ensures accounts.bills[i] in accounts.bills {}
    if exists b :: b in accounts.bills && IsOwedBy(b, a) {
      var b :| b in accounts.bills && IsOwedBy(b, a);
      var i :| 0 <= i < |accounts.bills| && accounts.bills[i] == b;
    }
  }

  // ---------------------------------------------------------------- what cannot be asked

  /** The walk over a register stops at the first text that settles it: one that comes to nothing, or one that is the
      vehicle. A vehicle that comes to nothing stops it at once, unless there is nothing to walk. */
  lemma {:induction false} TheWalkStops(rule: IdentityRule, register: seq<string>, identity: string)
    ensures AnyMatch(rule, register, identity) == Refused(Fault.IdentityEmpty)
            <==> exists i :: StopsAt(rule, register, identity, i)
                             && (Normalise(rule, register[i]) == None || Normalise(rule, identity) == None)
    ensures AnyMatch(rule, register, identity) == Ok(true)
            <==> exists i :: StopsAt(rule, register, identity, i) && Normalise(rule, register[i]).Some?
                             && Normalise(rule, register[i]) == Normalise(rule, identity)
    ensures AnyMatch(rule, register, identity) in {Refused(Fault.IdentityEmpty), Ok(true), Ok(false)}
  {
    hide Normalise;
    if register != [] {
      var rest := register[1..];
      TheWalkStops(rule, rest, identity);
      MatchesAre(rule, register[0], identity);
      if StopsAt(rule, register, identity, 0) {
      } else {
        forall i | 0 <= i < |rest|
          ensures StopsAt(rule, rest, identity, i) <==> StopsAt(rule, register, identity, i + 1)
        {
          assert forall j :: 0 <= j < i ==> rest[j] == register[j + 1];
          assert rest[i] == register[i + 1];
        }
        forall i | StopsAt(rule, register, identity, i) ensures i > 0 && StopsAt(rule, rest, identity, i - 1) {}
      }
    }
  }

  predicate Settles(rule: IdentityRule, text: string, identity: string) {
    Normalise(rule, text) == None || Normalise(rule, identity) == None
    || Normalise(rule, text) == Normalise(rule, identity)
  }

  /** The first text that settles the walk. */
  predicate StopsAt(rule: IdentityRule, register: seq<string>, identity: string, i: int) {
    0 <= i < |register| && Settles(rule, register[i], identity)
    && forall j :: 0 <= j < i ==> !Settles(rule, register[j], identity)
  }

  /** What of an agreement is walked: this module's list is its own; an outside one's must be given, and one that says
      nothing of the agreement says it has nothing. An agreement without the garage is not walked. */
  lemma TheRegisterAsked(g: Garage, a: Agreement, identity: string, at: Instant, enteredAt: Option<Instant>,
                         standing: Standing, registrations: Option<map<AgreementId, seq<string>>>)
    ensures var answer := IsCovered(g, [a], identity, at, enteredAt, standing, registrations);
            if g.id !in a.covered then answer == Ok(NotCovered(NoAgreement, None))
            else if a.registrar.Outside? && registrations.None? then answer == Refused(RegistrationsNotGiven)
            else
              var register := if a.registrar.ThisModule? then a.vehicles
                              else if a.id in registrations.value then registrations.value[a.id] else [];
              match AnyMatch(g.rule, register, identity)
              case Refused(why) => answer == Refused(why)
              case Ok(false) => answer == Ok(NotCovered(NoAgreement, None))
              case Ok(true) => answer == Judge(g, a, at, enteredAt, standing)
  {
    hide Judge, AnyMatch;
    assert [a][..0] == [] && [a.id][..0] == [];
    assert Latest([a], a.id) == Some(a);
    assert FirstSeen([a]) == [a.id];
    assert Mine(g, [a], [a.id][..0], identity, registrations) == Ok([]);
    assert forall found: seq<Agreement> :: [] + found == found;
  }

  // ---------------------------------------------------------------- what is published

  /** The published register has the garage's rows and no other; of each agreement they name, what its newest version
      says of version, start, cancellation and pauses; and those of them that no longer cover the garage apart. */
  lemma ThePublishedRegisterIs(s: Store, accounts: Accounts, garage: GarageId, form: string, id: AgreementId)
    requires Kept(s)
    ensures var register := ShowGarageRegister(s, accounts, garage);
            (form in register.registrations && register.registrations[form] == id
             <==> Holds(s.rows, id, Place(garage, form)))
            && (id in register.agreements <==> exists f :: Holds(s.rows, id, Place(garage, f)))
            && (id in register.agreements ==>
                  var a, published := Latest(s.versions, id), register.agreements[id];
                  a.Some? && published.version == a.value.version && published.status == a.value.status
                  && published.cancelledDay == a.value.cancelledDay && published.startDay == a.value.startDay
                  && published.pauses == a.value.pauses)
            && register.notCovering == {}
  {
    hide Places, Canonical, FormAt, HomeFirst, ListHeld, DecisionsFor, AppliedGraceDays, IsBlocked, EarliestUnpaidDay,
         Latest, Kept;
    var register := ShowGarageRegister(s, accounts, garage);
    forall p | p in s.rows && p.garage == garage ensures HolderKnown(s, p) && p == Place(garage, p.form) {
      HolderIsKnown(s, p);
    }
    if f :| Holds(s.rows, id, Place(garage, f)) {
      assert HolderKnown(s, Place(garage, f));
    }
    assert Holds(s.rows, id, Place(garage, form)) ==> form in register.registrations;
  }
}
