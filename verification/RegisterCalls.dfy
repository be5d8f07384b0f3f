/** What each call of `store/records.py` takes to go through, what it says otherwise, and what it leaves of the
    register: in the fields of the versions, the garages and the rows. `Register` keeps the invariant over them. */
module RegisterCalls {
  import opened Calendar
  import opened Garages
  import opened Agreements
  import opened Cycle
  import opened Pauses
  import opened Register
  import opened Options

  /** The form a text has at a garage, if it has one. */
  predicate HasForm(s: Store, g: GarageId, text: string, form: string) {
    g in s.garages && Normalise(s.garages[g].rule, text) == Some(form)
  }

  predicate HasNoForm(s: Store, g: GarageId, text: string) {
    g !in s.garages || Normalise(s.garages[g].rule, text) == None
  }

  /** The holder's newest version is cancelled as of a day that has come at the garage. */
  predicate IsDue(s: Store, holder: AgreementId, g: GarageId, now: Instant) {
    var l := Latest(s.versions, holder);
    l.Some? && l.value.status == Cancelled && l.value.cancelledDay.Some? && g in s.garages
    && l.value.cancelledDay.value <= s.garages[g].zone.local(now).day
  }

  /** The text's row at the garage is another agreement's that is active, or cancelled as of a day still to come. */
  ghost predicate InTheWay(s: Store, id: AgreementId, g: GarageId, text: string, now: Instant) {
    exists form :: HasForm(s, g, text, form) && Place(g, form) in s.rows && s.rows[Place(g, form)] != id
                   && !IsDue(s, s.rows[Place(g, form)], g, now)
  }

  /** A garage is added exactly when its grace is not negative, its day of the month is one that every month has, and
      its id is new; and then it is there beside the others, and nothing else has changed. */
  lemma WhenAGarageIsAdded(s: Store, g: Garage)
    ensures StoreGarage(s, g).Ok?
            <==> g.graceDays >= 0 && g.id !in s.garages
                 && match g.billingDay
                    case NthOfMonth(n) => 1 <= n <= 28
                    case _ => true
    ensures StoreGarage(s, g).Refused? ==>
              StoreGarage(s, g).error
              == (if g.graceDays < 0 || (g.billingDay.NthOfMonth? && !(1 <= g.billingDay.n <= 28)) then NotAGarage
                  else GarageTaken)
    ensures StoreGarage(s, g).Ok? ==> StoreGarage(s, g).value == s.(garages := s.garages[g.id := g])
  {}

  // ---------------------------------------------------------------- the plan

  lemma RefusalAtIs(s: Store, id: AgreementId, g: GarageId, texts: seq<string>, now: Instant)
    ensures RefusalAt(s, id, g, texts, now)
            == if exists t :: t in texts && HasNoForm(s, g, t) then Some(IdentityEmpty)
               else if exists t :: t in texts && InTheWay(s, id, g, t, now) then Some(AlreadyRegistered)
               else None
  {
    hide Places, Normalise, Latest;
    if t :| t in texts && HasNoForm(s, g, t) {
      var j :| 0 <= j < |texts| && texts[j] == t;
      assert FormAt(s.garages, g, texts[j]).None?;
    } else {
      forall j | 0 <= j < |texts| ensures FormAt(s.garages, g, texts[j]).Some? {
        assert texts[j] in texts && !HasNoForm(s, g, texts[j]);
      }
      HeldAtIs(s, id, g, texts, now);
    }
  }

  lemma HeldAtIs(s: Store, id: AgreementId, g: GarageId, texts: seq<string>, now: Instant)
    ensures (exists p :: p in Places(s.garages, [g], texts) && !Takeable(s, id, p, now))
            <==> exists t :: t in texts && InTheWay(s, id, g, t, now)
  {
    hide Places, Normalise, Latest;
    if p :| p in Places(s.garages, [g], texts) && !Takeable(s, id, p, now) {
      PlacesAre(s.garages, [g], texts, p);
      var j :| 0 <= j < |texts| && FormAt(s.garages, p.garage, texts[j]) == Some(p.form);
      assert HasForm(s, g, texts[j], p.form) && p == Place(g, p.form);
      assert texts[j] in texts && InTheWay(s, id, g, texts[j], now);
    }
    if t :| t in texts && InTheWay(s, id, g, t, now) {
      var form :| HasForm(s, g, t, form) && Place(g, form) in s.rows && s.rows[Place(g, form)] != id
                  && !IsDue(s, s.rows[Place(g, form)], g, now);
      PlacesAre(s.garages, [g], texts, Place(g, form));
      var j :| 0 <= j < |texts| && texts[j] == t;
      assert FormAt(s.garages, g, texts[j]) == Some(form);
      assert !Takeable(s, id, Place(g, form), now);
    }
  }

  /** Whether anything stands against the texts at a garage. */
  ghost predicate TroubleAt(s: Store, id: AgreementId, g: GarageId, texts: seq<string>, now: Instant) {
    exists t :: t in texts && (HasNoForm(s, g, t) || InTheWay(s, id, g, t, now))
  }

  /** The first garage of the covered set with trouble decides: a text that comes to nothing there before one that
      another agreement holds there. */
  ghost predicate RefusesTheFirst(s: Store, id: AgreementId, covered: seq<GarageId>, texts: seq<string>, now: Instant,
                                  refusal: Option<Refusal>)
  {
    (refusal.None? <==> forall i :: 0 <= i < |covered| ==> !TroubleAt(s, id, covered[i], texts, now))
    && forall i :: 0 <= i < |covered| && TroubleAt(s, id, covered[i], texts, now)
                   && (forall j :: 0 <= j < i ==> !TroubleAt(s, id, covered[j], texts, now)) ==>
         refusal == Some(if exists t :: t in texts && HasNoForm(s, covered[i], t) then IdentityEmpty
                         else AlreadyRegistered)
  }

  lemma {:induction false} ThePlanRefusesTheFirst(s: Store, id: AgreementId, covered: seq<GarageId>, texts: seq<string>,
                                                  now: Instant)
    ensures RefusesTheFirst(s, id, covered, texts, now, PlanRefusal(s, id, covered, texts, now))
  {
    hide HasNoForm, InTheWay, RefusalAt;
    if covered != [] {
      var front, last := covered[..|covered| - 1], covered[|covered| - 1];
      ThePlanRefusesTheFirst(s, id, front, texts, now);
      RefusalAtIs(s, id, last, texts, now);
      assert forall i :: 0 <= i < |front| ==> front[i] == covered[i];
      assert RefusalAt(s, id, last, texts, now).Some? <==> TroubleAt(s, id, last, texts, now);
    }
  }

  // ---------------------------------------------------------------- a save

  /** Some day of a paid period is paused by the new version and not by the newest one stored. */
  ghost predicate NewlyPausesAPaidDay(newest: Agreement, a: Agreement, paid: seq<Period>) {
    exists day :: PausedOn(a.pauses, day) && !PausedOn(newest.pauses, day)
                  && exists j :: 0 <= j < |paid| && paid[j].startDay <= day < paid[j].endDay
  }

  lemma NewlyPausesIs(newest: Agreement, a: Agreement, paid: seq<Period>)
    ensures NewlyPausesAPaidDay(newest, a, paid) <==> PausesPaidDays(a.pauses, newest.pauses, paid)
  {
    hide PausedOn;
    forall day ensures InPaid(paid, day) <==> exists j :: 0 <= j < |paid| && paid[j].startDay <= day < paid[j].endDay {
      if InPaid(paid, day) {
        var j :| 0 <= j < |paid| && paid[j].Contains(day);
        assert paid[j].startDay <= day < paid[j].endDay;
      }
      if j :| 0 <= j < |paid| && paid[j].startDay <= day < paid[j].endDay {
        assert paid[j].Contains(day);
      }
    }
  }

  /** Two texts of the list that come to one form at the agreement's home. */
  ghost predicate ListsOneTwice(s: Store, a: Agreement) {
    exists i, j, form :: 0 <= i < j < |a.vehicles| && HasForm(s, a.garage, a.vehicles[i], form)
                         && HasForm(s, a.garage, a.vehicles[j], form)
  }

  lemma ListsTwiceIs(s: Store, a: Agreement)
    requires forall t :: t in a.vehicles ==> !HasNoForm(s, a.garage, t)
    ensures ListsTwice(s.garages, a) <==> ListsOneTwice(s, a)
  {
    hide Normalise;
    if ListsTwice(s.garages, a) {
      var i, j :| 0 <= i < j < |a.vehicles|
                  && FormAt(s.garages, a.garage, a.vehicles[i]) == FormAt(s.garages, a.garage, a.vehicles[j]);
      assert a.vehicles[i] in a.vehicles;
      assert HasForm(s, a.garage, a.vehicles[i], FormAt(s.garages, a.garage, a.vehicles[i]).value);
      assert HasForm(s, a.garage, a.vehicles[j], FormAt(s.garages, a.garage, a.vehicles[i]).value);
    }
    if ListsOneTwice(s, a) {
      var i, j, form :| 0 <= i < j < |a.vehicles| && HasForm(s, a.garage, a.vehicles[i], form)
                        && HasForm(s, a.garage, a.vehicles[j], form);
      assert FormAt(s.garages, a.garage, a.vehicles[i]) == FormAt(s.garages, a.garage, a.vehicles[j]);
    }
  }

  /** What a save is judged against the versions stored, in order: home, registrar, version, payer, pauses. */
  lemma WhyAVersionIsRefused(s: Store, a: Agreement, paid: seq<Period>)
    requires InOrder(s.versions) && Latest(s.versions, a.id).Some?
    ensures var newest := Latest(s.versions, a.id).value;
            RefusalOfVersion(newest, a, paid)
            == if exists v :: v in s.versions && v.id == a.id && v.garage != a.garage then Some(HomeMoved)
               else if exists v :: v in s.versions && v.id == a.id && v.registrar != a.registrar
               then Some(RegistrarChanged)
               else if exists v :: v in s.versions && v.id == a.id && v.version >= a.version then Some(VersionNotNewer)
               else if exists v :: v in s.versions && v.id == a.id && v.payer != a.payer then Some(PayerChanged)
               else if NewlyPausesAPaidDay(newest, a, paid) then Some(PauseOverPaidDays)
               else None
  {
    hide Accepted, PausesPaidDays, NewlyPausesAPaidDay, Latest;
    var newest := Latest(s.versions, a.id).value;
    NewlyPausesIs(newest, a, paid);
    forall v | v in s.versions && v.id == a.id
      ensures v.garage == newest.garage && v.registrar == newest.registrar && v.payer == newest.payer
              && v.version <= newest.version
    {
      OneOfMany(s.versions, v, newest);
    }
  }

  lemma OneOfMany(versions: seq<Agreement>, v: Agreement, w: Agreement)
    requires InOrder(versions) && v in versions && w in versions && v.id == w.id
    ensures v.garage == w.garage && v.registrar == w.registrar && v.payer == w.payer
  {
    hide Accepted;
    var i :| 0 <= i < |versions| && versions[i] == v;
    var j :| 0 <= j < |versions| && versions[j] == w;
  }

  lemma {:induction false} WithoutNothing(gs: seq<GarageId>, g: GarageId)
    requires g !in gs
    ensures Without(gs, g) == gs
  {
    if gs != [] {
      WithoutNothing(gs[..|gs| - 1], g);
      assert gs == gs[..|gs| - 1] + [gs[|gs| - 1]];
    }
  }

  lemma {:induction false} WithoutOne(gs: seq<GarageId>, i: nat)
    requires i < |gs| && NoRepeats(gs)
    ensures Without(gs, gs[i]) == gs[..i] + gs[i + 1..]
  {
    var front, last := gs[..|gs| - 1], gs[|gs| - 1];
    assert gs == front + [last];
    if i == |gs| - 1 {
      WithoutNothing(front, last);
      assert front + [] == front && gs[i + 1..] == [];
    } else {
      WithoutOne(front, i);
      assert front[..i] == gs[..i] && gs[i + 1..] == front[i + 1..] + [last];
    }
  }

  /** The covered set is walked with the home first and then in its own order. */
  lemma HomeFirstIs(a: Agreement, i: nat)
    requires Accepted(a) && i < |a.covered| && a.covered[i] == a.garage
    ensures HomeFirst(a) == [a.garage] + a.covered[..i] + a.covered[i + 1..]
  {
    WithoutOne(a.covered, i);
  }

  ghost predicate NothingAgainst(s: Store, id: AgreementId, covered: seq<GarageId>, texts: seq<string>, now: Instant) {
    forall g :: g in covered ==> !TroubleAt(s, id, g, texts, now)
  }

  lemma PlanPassesIff(s: Store, id: AgreementId, a: Agreement, texts: seq<string>, now: Instant)
    requires a.garage in a.covered
    ensures PlanRefusal(s, id, HomeFirst(a), texts, now).None? <==> NothingAgainst(s, id, a.covered, texts, now)
  {
    hide TroubleAt, HomeFirst, PlanRefusal;
    HomeFirstKeeps(a);
    ThePlanRefusesTheFirst(s, id, HomeFirst(a), texts, now);
    var covered := HomeFirst(a);
    if NothingAgainst(s, id, a.covered, texts, now) {
      forall i | 0 <= i < |covered| ensures !TroubleAt(s, id, covered[i], texts, now) {
        assert covered[i] in covered;
      }
    }
    if PlanRefusal(s, id, covered, texts, now).None? {
      forall g | g in a.covered ensures !TroubleAt(s, id, g, texts, now) {
        assert g in covered;
      }
    }
  }

  /** A version is saved exactly when the constructor takes it, it is saved under its home, no version stored of the
      agreement has another home, registrar or payer or is as new, it newly pauses no paid day, every garage it covers
      is in the store, and -- where its list is this module's to register -- every text of it has a form at every one of
      them that nobody else holds there, and no two have one form at home. */
  lemma WhenASaveGoesThrough(s: Store, home: GarageId, a: Agreement, paid: seq<Period>, now: Instant)
    requires InOrder(s.versions)
    ensures Save(s, home, a, paid, now).Ok?
            <==> Accepted(a) && home == a.garage
                 && (forall v :: v in s.versions && v.id == a.id ==>
                       v.garage == a.garage && v.registrar == a.registrar && v.version < a.version
                       && v.payer == a.payer)
                 && (Latest(s.versions, a.id).Some? ==>
                       !NewlyPausesAPaidDay(Latest(s.versions, a.id).value, a, paid))
                 && (forall g :: g in a.covered ==> g in s.garages)
                 && (a.registrar == ThisModule ==>
                       NothingAgainst(s, a.id, a.covered, a.vehicles, now) && !ListsOneTwice(s, a))
  {
    hide Accepted, PausesPaidDays, NewlyPausesAPaidDay, Latest, HomeFirst, PlanRefusal, ListsTwice, ListsOneTwice,
         InTheWay, RefusalOfVersion, HasNoForm, Normalise, InOrder;
    if Accepted(a) {
      HomeIsCovered(a);
      PlanPassesIff(s, a.id, a, a.vehicles, now);
      if NothingAgainst(s, a.id, a.covered, a.vehicles, now) {
        forall t | t in a.vehicles ensures !HasNoForm(s, a.garage, t) {
          assert !TroubleAt(s, a.id, a.garage, a.vehicles, now);
        }
        ListsTwiceIs(s, a);
      }
    }
    if Latest(s.versions, a.id).Some? {
      WhyAVersionIsRefused(s, a, paid);
    }
  }

  /** And what it says otherwise: the first of these, in this order, that is so. */
  lemma WhyASaveIsRefused(s: Store, home: GarageId, a: Agreement, paid: seq<Period>, now: Instant)
    requires InOrder(s.versions) && Save(s, home, a, paid, now).Refused?
    ensures var why := Save(s, home, a, paid, now).error;
            if !Accepted(a) then why == NotAnAgreement
            else if home != a.garage then why == GarageMismatch
            else if exists v :: v in s.versions && v.id == a.id && v.garage != a.garage then why == HomeMoved
            else if exists v :: v in s.versions && v.id == a.id
                                && v.registrar != a.registrar then why == RegistrarChanged
            else if exists v :: v in s.versions && v.id == a.id && v.version >= a.version then why == VersionNotNewer
            else if exists v :: v in s.versions && v.id == a.id && v.payer != a.payer then why == PayerChanged
            else if Latest(s.versions, a.id).Some? && NewlyPausesAPaidDay(Latest(s.versions, a.id).value, a, paid)
            then why == PauseOverPaidDays
            else if exists g :: g in a.covered && g !in s.garages then why == GarageNotFound
            else if NothingAgainst(s, a.id, a.covered, a.vehicles, now)
            then why == VehicleListedTwice && ListsOneTwice(s, a)
            else RefusesTheFirst(s, a.id, HomeFirst(a), a.vehicles, now, Some(why))
  {
    hide Accepted, PausesPaidDays, NewlyPausesAPaidDay, Latest, HomeFirst, PlanRefusal, ListsTwice, ListsOneTwice,
         InTheWay, RefusalOfVersion, HasNoForm, Normalise, InOrder, RefusesTheFirst;
    if Accepted(a) {
      HomeIsCovered(a);
      PlanPassesIff(s, a.id, a, a.vehicles, now);
      ThePlanRefusesTheFirst(s, a.id, HomeFirst(a), a.vehicles, now);
      if NothingAgainst(s, a.id, a.covered, a.vehicles, now) {
        forall t | t in a.vehicles ensures !HasNoForm(s, a.garage, t) {
          assert !TroubleAt(s, a.id, a.garage, a.vehicles, now);
        }
        ListsTwiceIs(s, a);
      }
    }
    if Latest(s.versions, a.id).Some? {
      WhyAVersionIsRefused(s, a, paid);
    }
  }

  /** The place is one that a text of the list names, at a covered garage. */
  ghost predicate IsListed(s: Store, covered: seq<GarageId>, texts: seq<string>, p: Place) {
    p.garage in covered && exists t :: t in texts && HasForm(s, p.garage, t, p.form)
  }

  lemma ListedIs(s: Store, covered: seq<GarageId>, texts: seq<string>, p: Place)
    ensures p in Places(s.garages, covered, texts) <==> IsListed(s, covered, texts, p)
  {
    hide Normalise, Places;
    PlacesAre(s.garages, covered, texts, p);
    if Names(s.garages, texts, p) {
      var j :| 0 <= j < |texts| && FormAt(s.garages, p.garage, texts[j]) == Some(p.form);
      assert texts[j] in texts && HasForm(s, p.garage, texts[j], p.form);
    }
    if t :| t in texts && HasForm(s, p.garage, t, p.form) {
      var j :| 0 <= j < |texts| && texts[j] == t;
      assert FormAt(s.garages, p.garage, texts[j]) == Some(p.form);
    }
  }

  lemma SameCovered(s: Store, a: Agreement, texts: seq<string>, p: Place)
    requires a.garage in a.covered
    ensures p in Places(s.garages, HomeFirst(a), texts) <==> IsListed(s, a.covered, texts, p)
  {
    hide Places, HomeFirst;
    HomeFirstKeeps(a);
    ListedIs(s, HomeFirst(a), texts, p);
  }

  /** What a save leaves. The version is stored after the others. Where the list is this module's to register, the
      agreement has exactly the list's places, whoever had them; where it is not, it keeps exactly what it had at the
      garages still covered. Every other row is as it was. */
  lemma WhatASaveLeaves(s: Store, home: GarageId, a: Agreement, paid: seq<Period>, now: Instant, p: Place)
    requires Save(s, home, a, paid, now).Ok?
    ensures var after := Save(s, home, a, paid, now).value;
            after.garages == s.garages && after.versions == s.versions + [a]
            && (Holds(after.rows, a.id, p)
                <==> if a.registrar == ThisModule then IsListed(s, a.covered, a.vehicles, p)
                     else Holds(s.rows, a.id, p) && p.garage in a.covered)
            && (!Holds(after.rows, a.id, p) && p in after.rows ==> p in s.rows && after.rows[p] == s.rows[p])
            && (p in s.rows && s.rows[p] != a.id && !Holds(after.rows, a.id, p) ==>
                  p in after.rows && after.rows[p] == s.rows[p])
  {
    hide Places, PlanRefusal, RefusalOfVersion, Accepted, ListsTwice, Latest, HomeFirst;
    HomeIsCovered(a);
    HomeFirstKeeps(a);
    SameCovered(s, a, a.vehicles, p);
  }

  // ---------------------------------------------------------------- the door

  /** A text is registered at the door exactly when the agreement is stored, is registered from outside, and nothing
      stands against the text at any garage that its newest version covers. */
  lemma WhenTheDoorRegisters(s: Store, id: AgreementId, text: string, now: Instant)
    requires InOrder(s.versions)
    ensures var newest, done := Latest(s.versions, id), DoorRegister(s, id, text, now);
            (done == Refused(AgreementNotFound) <==> forall v :: v in s.versions ==> v.id != id)
            && (newest.Some? ==>
                  (done == Refused(RegistrarIsThisModule) <==> newest.value.registrar == ThisModule)
                  && (done.Ok? <==> newest.value.registrar == Outside
                                    && NothingAgainst(s, id, newest.value.covered, [text], now))
                  && (newest.value.registrar == Outside && done.Refused? ==>
                        RefusesTheFirst(s, id, HomeFirst(newest.value), [text], now, Some(done.error))))
  {
    hide Places, PlanRefusal, Latest, HomeFirst, InTheWay, HasNoForm, Accepted, TroubleAt;
    if Latest(s.versions, id).Some? {
      var newest := Latest(s.versions, id).value;
      LatestIsAccepted(s, id);
      PlanPassesIff(s, id, newest, [text], now);
      ThePlanRefusesTheFirst(s, id, HomeFirst(newest), [text], now);
      PlanSays(s, id, HomeFirst(newest), [text], now);
    }
  }

  lemma {:induction false} PlanSays(s: Store, id: AgreementId, covered: seq<GarageId>, texts: seq<string>, now: Instant)
    ensures PlanRefusal(s, id, covered, texts, now) in {None, Some(IdentityEmpty), Some(AlreadyRegistered)}
  {
    if covered != [] {
      PlanSays(s, id, covered[..|covered| - 1], texts, now);
    }
  }

  /** A row is given up on its holder's day and not before: where one row is all that stands against a text, its holder
      being another agreement, the text is registered iff that agreement is cancelled and its day has come there. */
  lemma OnlyTheDueGiveWay(s: Store, id: AgreementId, text: string, now: Instant, g: GarageId, form: string)
    requires InOrder(s.versions) && Latest(s.versions, id).Some? && Latest(s.versions, id).value.registrar == Outside
    requires g in Latest(s.versions, id).value.covered && HasForm(s, g, text, form)
    requires Place(g, form) in s.rows && s.rows[Place(g, form)] != id
    requires forall h :: h in Latest(s.versions, id).value.covered && h != g ==> !TroubleAt(s, id, h, [text], now)
    ensures var holder, done := Latest(s.versions, s.rows[Place(g, form)]), DoorRegister(s, id, text, now);
            if holder.Some? && holder.value.status == Cancelled && holder.value.cancelledDay.Some?
               && holder.value.cancelledDay.value <= s.garages[g].zone.local(now).day
            then done.Ok? && Holds(done.value.rows, id, Place(g, form)) else done == Refused(AlreadyRegistered)
  {
    hide Places, PlanRefusal, Latest, HomeFirst, Accepted, Normalise;
    var newest := Latest(s.versions, id).value;
    WhenTheDoorRegisters(s, id, text, now);
    LatestIsAccepted(s, id);
    HomeFirstKeeps(newest);
    assert TroubleAt(s, id, g, [text], now) <==> !IsDue(s, s.rows[Place(g, form)], g, now) by {
      OnlyOneText(s, id, g, text, form, now);
    }
    if IsDue(s, s.rows[Place(g, form)], g, now) {
      assert NothingAgainst(s, id, newest.covered, [text], now);
      WhatTheDoorRegisters(s, id, text, now, Place(g, form));
      assert text in [text] && IsListed(s, newest.covered, [text], Place(g, form));
    } else {
      OneGarageDecides(s, id, HomeFirst(newest), text, now, g, form, DoorRegister(s, id, text, now).error);
    }
  }

  lemma OnlyOneText(s: Store, id: AgreementId, g: GarageId, text: string, form: string, now: Instant)
    requires HasForm(s, g, text, form) && Place(g, form) in s.rows && s.rows[Place(g, form)] != id
    ensures TroubleAt(s, id, g, [text], now) <==> !IsDue(s, s.rows[Place(g, form)], g, now)
  {
    hide Normalise, Latest, IsDue;
    assert text in [text] && !HasNoForm(s, g, text);
    assert InTheWay(s, id, g, text, now) <==> !IsDue(s, s.rows[Place(g, form)], g, now);
  }

  lemma OneGarageDecides(s: Store, id: AgreementId, covered: seq<GarageId>, text: string, now: Instant, g: GarageId,
                         form: string, why: Refusal)
    requires g in covered && HasForm(s, g, text, form) && TroubleAt(s, id, g, [text], now)
    requires forall h :: h in covered && h != g ==> !TroubleAt(s, id, h, [text], now)
    ensures RefusesTheFirst(s, id, covered, [text], now, Some(why)) ==> why == AlreadyRegistered
  {
    hide Normalise, TroubleAt;
    var i :| 0 <= i < |covered| && covered[i] == g && forall j :: 0 <= j < i ==> covered[j] != g by {
      FirstPosition(covered, g);
    }
    forall j | 0 <= j < i ensures !TroubleAt(s, id, covered[j], [text], now) {
      assert covered[j] in covered;
    }
    assert !HasNoForm(s, g, [text][0]);
  }

  lemma {:induction false} FirstPosition(covered: seq<GarageId>, g: GarageId)
    requires g in covered
    ensures exists i :: 0 <= i < |covered| && covered[i] == g && forall j :: 0 <= j < i ==> covered[j] != g
  {
    var front, last := covered[..|covered| - 1], |covered| - 1;
    if g in front {
      FirstPosition(front, g);
      var i :| 0 <= i < |front| && front[i] == g && forall j :: 0 <= j < i ==> front[j] != g;
      assert covered[i] == g && forall j :: 0 <= j < i ==> covered[j] == front[j];
    } else {
      assert covered[last] == g;
      assert forall j :: 0 <= j < last ==> covered[j] == front[j] && front[j] in front;
    }
  }

  /** And it leaves the text's place at every one of them with the agreement, and every other row as it was. */
  lemma WhatTheDoorRegisters(s: Store, id: AgreementId, text: string, now: Instant, p: Place)
    requires InOrder(s.versions) && DoorRegister(s, id, text, now).Ok?
    ensures var after, covered := DoorRegister(s, id, text, now).value, Latest(s.versions, id).value.covered;
            after == s.(rows := after.rows)
            && if IsListed(s, covered, [text], p) then Holds(after.rows, id, p)
               else (p in after.rows <==> p in s.rows) && (p in s.rows ==> after.rows[p] == s.rows[p])
  {
    hide Places, PlanRefusal, Latest, HomeFirst, Accepted;
    LatestIsAccepted(s, id);
    SameCovered(s, Latest(s.versions, id).value, [text], p);
  }

  /** The text's row at one covered garage is also what another of the agreement's rows comes to there: a row that it
      has at another covered garage, where the text does not name it. */
  ghost predicate WouldTakeAnothers(s: Store, id: AgreementId, text: string, covered: seq<GarageId>) {
    exists g, form, p: Place :: g in covered && p.garage in covered && p.garage != g
                         && HasForm(s, g, text, form) && Holds(s.rows, id, Place(g, form))
                         && Holds(s.rows, id, p) && !HasForm(s, p.garage, text, p.form) && HasForm(s, g, p.form, form)
  }

  lemma AmbiguousIs(s: Store, id: AgreementId, text: string, covered: seq<GarageId>)
    ensures Ambiguous(s, id, text, covered) <==> WouldTakeAnothers(s, id, text, covered)
  {
    hide Normalise;
    if Ambiguous(s, id, text, covered) {
      var g, p :| g in covered && p in s.rows && p.garage in covered && AmbiguousAt(s, id, text, g, p.garage, p.form);
      var form := FormAt(s.garages, g, text).value;
      assert Place(p.garage, p.form) == p && Place(g, form) in s.rows;
      assert HasForm(s, g, text, form) && HasForm(s, g, p.form, form) && !HasForm(s, p.garage, text, p.form);
    }
    if WouldTakeAnothers(s, id, text, covered) {
      var g, form, p: Place :| g in covered && p.garage in covered && p.garage != g
                        && HasForm(s, g, text, form) && Holds(s.rows, id, Place(g, form))
                        && Holds(s.rows, id, p) && !HasForm(s, p.garage, text, p.form) && HasForm(s, g, p.form, form);
      assert Place(p.garage, p.form) == p;
      assert AmbiguousAt(s, id, text, g, p.garage, p.form);
    }
  }

  /** Why a release is refused: the first of these, in this order, that is so -- and it goes through where none is. */
  lemma WhyAReleaseIsRefused(s: Store, id: AgreementId, text: string, named: Option<GarageId>)
    requires InOrder(s.versions)
    ensures var newest, done := Latest(s.versions, id), DoorRelease(s, id, text, named);
            if newest.None? then done == Refused(AgreementNotFound)
            else
              var covered := newest.value.covered;
              var reached := if named.Some? then [named.value] else covered;
              if newest.value.registrar == ThisModule then done == Refused(RegistrarIsThisModule)
              else if named.Some? && named.value !in s.garages then done == Refused(GarageNotFound)
              else if named.Some? && named.value !in covered then done == Refused(GarageNotCovered)
              else if exists g :: g in reached && HasNoForm(s, g, text) then done == Refused(IdentityEmpty)
              else if named.None? && WouldTakeAnothers(s, id, text, covered) then done == Refused(ReleaseAmbiguous)
              else if forall p :: Holds(s.rows, id, p) ==> !IsListed(s, reached, [text], p)
              then done == Refused(NotRegistered)
              else done.Ok?
  {
    hide Places, Latest, HomeFirst, Accepted, Normalise, AmbiguousAt, WouldTakeAnothers;
    if Latest(s.versions, id).Some? {
      var newest := Latest(s.versions, id).value;
      LatestIsAccepted(s, id);
      HomeFirstKeeps(newest);
      var reached := Reached(newest, named);
      var garages := if named.Some? then [named.value] else newest.covered;
      assert forall g :: g in reached <==> g in garages;
      FormlessIs(s, reached, garages, text);
      NamedIs(s, id, text, reached, garages);
      assert Ambiguous(s, id, text, HomeFirst(newest)) <==> Ambiguous(s, id, text, newest.covered);
      AmbiguousIs(s, id, text, newest.covered);
      if named.Some? {
        var g := named.value;
        assert g in HomeFirst(newest) <==> g in newest.covered;
      }
      var none := forall p :: Holds(s.rows, id, p) ==> !IsListed(s, garages, [text], p);
      assert none <==> Named(s, id, text, reached) == {};
    }
  }

  lemma FormlessIs(s: Store, reached: seq<GarageId>, garages: seq<GarageId>, text: string)
    requires forall g :: g in reached <==> g in garages
    ensures FormlessAt(s.garages, reached, text) <==> exists g :: g in garages && HasNoForm(s, g, text)
  {
    hide Normalise;
    if FormlessAt(s.garages, reached, text) {
      var i :| 0 <= i < |reached| && FormAt(s.garages, reached[i], text).None?;
      assert reached[i] in garages && HasNoForm(s, reached[i], text);
    }
    if g :| g in garages && HasNoForm(s, g, text) {
      assert g in reached;
      var i :| 0 <= i < |reached| && reached[i] == g;
      assert FormAt(s.garages, reached[i], text).None?;
    }
  }

  lemma NamedIs(s: Store, id: AgreementId, text: string, reached: seq<GarageId>, garages: seq<GarageId>)
    requires forall g :: g in reached <==> g in garages
    ensures Named(s, id, text, reached) == {}
            <==> forall p :: Holds(s.rows, id, p) ==> !IsListed(s, garages, [text], p)
  {
    hide Places, Normalise;
    forall p ensures p in Named(s, id, text, reached) <==> Holds(s.rows, id, p) && IsListed(s, garages, [text], p) {
      ListedIs(s, reached, [text], p);
    }
  }
}
