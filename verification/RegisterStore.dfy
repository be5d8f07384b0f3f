/** The calls of `store/records.py` as they update the store: a read-only plan over every covered garage, and
    only then the releases and the writes. */
module RegisterStore {
  import opened Calendar
  import opened Garages
  import opened Agreements
  import opened Cycle
  import opened Pauses
  import Register
  import opened Options

  /** One garage's share of a plan: the forms to be there, and those a cancelled holder has released. */
  datatype Share = Share(garage: GarageId, listed: set<string>, held: set<string>)

  class Records {
    var garages: map<GarageId, Garage>
    var versions: seq<Agreement>
    var rows: map<Register.Place, AgreementId>

    ghost function View(): Register.Store
      reads this
    {
      Register.Store(garages, versions, rows)
    }

    constructor (s: Register.Store)
      ensures View() == s
    {
      garages, versions, rows := s.garages, s.versions, s.rows;
    }

    /** The forms of the texts at one garage, or nothing where one of them comes to nothing. */
    method Listed(g: GarageId, texts: seq<string>) returns (forms: Option<set<string>>)
      ensures forms.None? <==> exists j :: 0 <= j < |texts| && Register.FormAt(garages, g, texts[j]).None?
      ensures forms.Some? ==> forall f :: f in forms.value
                                          <==> Register.Place(g, f) in Register.Places(garages, [g], texts)
    {
      var listed := {};
      for j := 0 to |texts|
        invariant forall k :: 0 <= k < j ==> Register.FormAt(garages, g, texts[k]).Some?
        invariant forall f :: f in listed
                              <==> exists k :: 0 <= k < j && Register.FormAt(garages, g, texts[k]) == Some(f)
      {
        var form := Register.FormAt(garages, g, texts[j]);
        if form.None? {
          return None;
        }
        listed := listed + {form.value};
      }
      forall f ensures f in listed <==> Register.Place(g, f) in Register.Places(garages, [g], texts) {
        Register.PlacesAre(garages, [g], texts, Register.Place(g, f));
      }
      forms := Some(listed);
    }

    /** The holder's newest version is cancelled as of a day that has come at the garage. */
    predicate IsDue(holder: AgreementId, g: GarageId, now: Instant)
      reads this
    {
      var newest := Register.Latest(versions, holder);
      newest.Some? && newest.value.status == Cancelled && newest.value.cancelledDay.Some? && g in garages
      && newest.value.cancelledDay.value <= garages[g].zone.local(now).day
    }

    /** `_held_elsewhere`: walks the forms, whatever the order; a row another agreement still holds refuses. */
    method HeldElsewhere(id: AgreementId, g: GarageId, listed: set<string>, now: Instant)
      returns (held: Option<set<string>>)
      ensures held.None? <==> exists f :: f in listed && !Register.Takeable(View(), id, Register.Place(g, f), now)
      ensures held.None? <==> exists f :: f in listed && Register.Place(g, f) in rows
                                          && rows[Register.Place(g, f)] != id
                                          && !IsDue(rows[Register.Place(g, f)], g, now)
      ensures held.Some? ==> forall f :: f in held.value <==>
                f in listed && Register.Place(g, f) in rows && rows[Register.Place(g, f)] != id
    {
      var left, released := listed, {};
      while left != {}
        invariant left <= listed
        invariant forall f :: f in listed - left ==> Register.Takeable(View(), id, Register.Place(g, f), now)
        invariant forall f :: f in listed - left && Register.Place(g, f) in rows && rows[Register.Place(g, f)] != id ==>
                    IsDue(rows[Register.Place(g, f)], g, now)
        invariant forall f :: f in released <==>
                    f in listed - left && Register.Place(g, f) in rows && rows[Register.Place(g, f)] != id
        decreases |left|
      {
        var f :| f in left;
        var p := Register.Place(g, f);
        left := left - {f};
        if p in rows && rows[p] != id {
          if !Register.Freed(Register.Store(garages, versions, rows), rows[p], g, now) {
            assert !Register.Takeable(View(), id, p, now);
            return None;
          }
          released := released + {f};
        }
      }
      held := Some(released);
    }

    /** The plan's share of one garage is what its texts come to there, all of it free to take. */
    ghost predicate Planned(share: Share, id: AgreementId, texts: seq<string>, now: Instant)
      reads this
    {
      (forall f :: f in share.listed
                   <==> Register.Place(share.garage, f) in Register.Places(garages, [share.garage], texts))
      && (forall f :: f in share.held <==>
            f in share.listed && Register.Place(share.garage, f) in rows && rows[Register.Place(share.garage, f)] != id)
    }

    /** `_plan_registrations` only reads: garage after garage, and the first thing to refuse ends it. */
    method PlanRegistrations(id: AgreementId, covered: seq<GarageId>, texts: seq<string>, now: Instant)
      returns (plan: Result<seq<Share>, Register.Refusal>)
      ensures match Register.PlanRefusal(View(), id, covered, texts, now)
              case Some(why) => plan == Refused(why)
              case None => plan.Ok? && |plan.value| == |covered|
                           && forall i :: 0 <= i < |covered| ==>
                                plan.value[i].garage == covered[i] && Planned(plan.value[i], id, texts, now)
    {
      hide Register.Takeable, Register.FormAt, Register.Places;
      var shares: seq<Share> := [];
      for i := 0 to |covered|
        invariant Register.PlanRefusal(View(), id, covered[..i], texts, now).None?
        invariant |shares| == i
        invariant forall k :: 0 <= k < i ==> shares[k].garage == covered[k] && Planned(shares[k], id, texts, now)
      {
        var g := covered[i];
        assert covered[..i + 1][..i] == covered[..i];
        PlanStops(id, covered, i, texts, now);
        var listed := Listed(g, texts);
        if listed.None? {
          return Refused(Register.IdentityEmpty);
        }
        ShareIsWhatWasListed(g, texts, listed.value);
        var held := HeldElsewhere(id, g, listed.value, now);
        if held.None? {
          return Refused(Register.AlreadyRegistered);
        }
        shares := shares + [Share(g, listed.value, held.value)];
      }
      assert covered[..|covered|] == covered;
      plan := Ok(shares);
    }

    /** The places of one garage are its forms. */
    lemma ShareIsWhatWasListed(g: GarageId, texts: seq<string>, listed: set<string>)
      requires forall f :: f in listed <==> Register.Place(g, f) in Register.Places(garages, [g], texts)
      ensures forall p :: p in Register.Places(garages, [g], texts) <==> p.garage == g && p.form in listed
    {
      hide Register.Places;
      forall p ensures p in Register.Places(garages, [g], texts) <==> p.garage == g && p.form in listed {
        Register.PlacesAre(garages, [g], texts, p);
        assert p == Register.Place(p.garage, p.form);
      }
    }

    /** A refusal at one garage is the plan's. */
    lemma PlanStops(id: AgreementId, covered: seq<GarageId>, i: nat, texts: seq<string>, now: Instant)
      requires i < |covered| && Register.PlanRefusal(View(), id, covered[..i], texts, now).None?
      ensures Register.PlanRefusal(View(), id, covered[..i + 1], texts, now)
              == Register.RefusalAt(View(), id, covered[i], texts, now)
      ensures Register.RefusalAt(View(), id, covered[i], texts, now).Some? ==>
                Register.PlanRefusal(View(), id, covered, texts, now)
                == Register.RefusalAt(View(), id, covered[i], texts, now)
    {
      assert covered[..i + 1][..i] == covered[..i];
      if Register.RefusalAt(View(), id, covered[i], texts, now).Some? {
        FirstRefusalStays(id, covered, i + 1, texts, now);
      }
    }

    lemma {:induction false} FirstRefusalStays(id: AgreementId, covered: seq<GarageId>, i: nat, texts: seq<string>,
                                               now: Instant)
      requires i <= |covered| && Register.PlanRefusal(View(), id, covered[..i], texts, now).Some?
      ensures Register.PlanRefusal(View(), id, covered, texts, now)
              == Register.PlanRefusal(View(), id, covered[..i], texts, now)
      decreases |covered|
    {
      if i == |covered| {
        assert covered[..i] == covered;
      } else {
        assert covered[..|covered| - 1][..i] == covered[..i];
        FirstRefusalStays(id, covered[..|covered| - 1], i, texts, now);
      }
    }

    // -------------------------------------------------------------- the writes

    /** `_write_registrations`, at one garage: a released holder's row passes over, one already the agreement's is
        left, anything else is inserted -- at a place that is free, so the UNIQUE is never what refuses. */
    method WriteRegistrations(share: Share, id: AgreementId)
      requires forall f :: f in share.held ==> f in share.listed && Register.Place(share.garage, f) in rows
      requires forall f :: f in share.listed && Register.Place(share.garage, f) in rows && f !in share.held ==>
                 rows[Register.Place(share.garage, f)] == id
      modifies this`rows
      ensures rows == Register.Claim(old(rows), id, set f | f in share.listed :: Register.Place(share.garage, f))
    {
      hide Register.Claim;
      var left := share.listed;
      ghost var written: set<Register.Place> := {};
      NothingClaimed(rows, id);
      while left != {}
        invariant left <= share.listed
        invariant forall p: Register.Place :: p in written
                                              <==> p.garage == share.garage && p.form in share.listed - left
        invariant rows == Register.Claim(old(rows), id, written)
        decreases |left|
      {
        var f :| f in left;
        var p := Register.Place(share.garage, f);
        left := left - {f};
        ClaimOneMore(old(rows), id, written, p);
        written := written + {p};
        if f in share.held {
          rows := rows[p := id];
        } else if p !in rows || rows[p] != id {
          assert p !in old(rows);
          rows := rows[p := id];
        }
      }
      assert written == set f | f in share.listed :: Register.Place(share.garage, f) by {
        assert forall p: Register.Place :: p == Register.Place(p.garage, p.form);
      }
    }

    static lemma NothingClaimed(before: map<Register.Place, AgreementId>, id: AgreementId)
      ensures Register.Claim(before, id, {}) == before
    {}

    static lemma ClaimOneMore(before: map<Register.Place, AgreementId>, id: AgreementId, places: set<Register.Place>,
                              p: Register.Place)
      requires p !in places
      ensures Register.Claim(before, id, places + {p}) == Register.Claim(before, id, places)[p := id]
      ensures p in Register.Claim(before, id, places) <==> p in before
      ensures p in before ==> Register.Claim(before, id, places)[p] == before[p]
      ensures p in before && before[p] == id ==>
                Register.Claim(before, id, places)[p := id] == Register.Claim(before, id, places)
    {}

    /** How far `register_vehicles` has got: in step at the garages done, the agreement's old rows still at the
        covered ones to come, and everybody else's where no place of the agreement's has been written. */
    ghost predicate Partway(before: map<Register.Place, AgreementId>, id: AgreementId, covered: seq<GarageId>,
                            done: seq<GarageId>, texts: seq<string>)
      reads this
    {
      (forall p: Register.Place :: p in rows ==>
         if p.garage in done && Register.Names(garages, texts, p) then rows[p] == id
         else p in before && rows[p] == before[p] && (before[p] == id ==> p.garage in covered && p.garage !in done))
      && (forall p: Register.Place :: p.garage in done && Register.Names(garages, texts, p) ==> p in rows)
      && (forall p: Register.Place :: p in before && (before[p] == id ==> p.garage in covered && p.garage !in done) ==>
                                        p in rows)
    }

    /** What the two steps at one garage come to, row by row. */
    lemma InStepAt(start: map<Register.Place, AgreementId>, share: Share, id: AgreementId)
      requires
        var kept := map p | p in start && !(p.garage == share.garage && start[p] == id && p.form !in share.listed)
                        :: start[p];
        rows == Register.Claim(kept, id, set f | f in share.listed :: Register.Place(share.garage, f))
      ensures forall p: Register.Place :: p in rows <==>
                (p.garage == share.garage && p.form in share.listed)
                || (p in start && !(p.garage == share.garage && start[p] == id))
      ensures forall p: Register.Place :: p in rows ==>
                rows[p] == if p.garage == share.garage && p.form in share.listed then id else start[p]
    {
      assert forall p: Register.Place :: p == Register.Place(p.garage, p.form);
    }

    /** One garage of `register_vehicles`: the agreement's rows that are no longer listed go, then the writes. */
    method RegisterAt(share: Share, id: AgreementId, ghost before: map<Register.Place, AgreementId>,
                      ghost covered: seq<GarageId>, ghost done: seq<GarageId>, ghost texts: seq<string>)
      requires Partway(before, id, covered, done, texts) && share.garage in covered
      requires forall f :: f in share.listed <==> Register.Names(garages, texts, Register.Place(share.garage, f))
      requires forall f :: f in share.held <==>
                 f in share.listed && Register.Place(share.garage, f) in before
                 && before[Register.Place(share.garage, f)] != id
      modifies this`rows
      ensures Partway(before, id, covered, done + [share.garage], texts)
    {
      hide Register.Names, Register.Claim;
      ghost var start := rows;
      rows := map p | p in rows && !(p.garage == share.garage && rows[p] == id && p.form !in share.listed) :: rows[p];
      WriteRegistrations(share, id);
      InStepAt(start, share, id);
    }

    /** `register_vehicles`: the plan, then the releases at dropped garages, then each garage in turn. */
    method RegisterVehicles(id: AgreementId, covered: seq<GarageId>, texts: seq<string>, now: Instant)
      returns (refusal: Option<Register.Refusal>)
      modifies this`rows
      ensures refusal == Register.PlanRefusal(old(View()), id, covered, texts, now)
      ensures rows
              == if refusal.Some? then old(rows)
                 else Register.InStep(old(rows), id, Register.Places(garages, covered, texts))
    {
      var plan := PlanRegistrations(id, covered, texts, now);
      if plan.Refused? {
        return Some(plan.error);
      }
      ghost var before := rows;
      rows := Register.ReleaseDropped(rows, id, covered);
      assert Partway(before, id, covered, [], texts);
      for i := 0 to |plan.value|
        invariant Partway(before, id, covered, covered[..i], texts)
      {
        var share := plan.value[i];
        forall f ensures f in share.listed <==> Register.Names(garages, texts, Register.Place(share.garage, f)) {
          Register.PlacesAre(garages, [share.garage], texts, Register.Place(share.garage, f));
        }
        RegisterAt(share, id, before, covered, covered[..i], texts);
        assert covered[..i + 1] == covered[..i] + [share.garage];
      }
      assert covered[..|covered|] == covered;
      AllTheWay(before, id, covered, texts);
      refusal := None;
    }

    lemma AllTheWay(before: map<Register.Place, AgreementId>, id: AgreementId, covered: seq<GarageId>,
                    texts: seq<string>)
      requires Partway(before, id, covered, covered, texts)
      ensures rows == Register.InStep(before, id, Register.Places(garages, covered, texts))
    {
      hide Register.Names, Register.Places;
      forall p
        ensures p in Register.Places(garages, covered, texts)
                <==> p.garage in covered && Register.Names(garages, texts, p)
      {
        Register.PlacesAre(garages, covered, texts, p);
      }
    }

    // -------------------------------------------------------------- the calls

    /** `store_garage`: one row under an id of its own, or the store as it was. */
    method StoreGarage(g: Garage) returns (refusal: Option<Register.Refusal>)
      requires Register.Kept(View())
      modifies this`garages
      ensures Register.Kept(View())
      ensures Register.StoreGarage(old(View()), g) == if refusal.Some? then Refused(refusal.value) else Ok(View())
      ensures refusal.Some? ==> View() == old(View())
    {
      hide Register.Kept;
      if !WellFormed(g) {
        return Some(Register.NotAGarage);
      }
      if g.id in garages {
        return Some(Register.GarageTaken);
      }
      Register.AddGarageKeeps(View(), g);
      garages := garages[g.id := g];
      refusal := None;
    }

    /** `store_agreement`: one validation block before any write; a refusal leaves the whole store as it was.
        `paid` is billing periods, none of them empty. */
    method StoreAgreement(home: GarageId, a: Agreement, paid: seq<Period>, now: Instant)
      returns (refusal: Option<Register.Refusal>)
      requires Register.Kept(View()) && (forall i :: 0 <= i < |paid| ==> paid[i].Days() > 0)
      modifies this
      ensures Register.Kept(View())
      ensures Register.Save(old(View()), home, a, paid, now)
              == if refusal.Some? then Refused(refusal.value) else Ok(View())
      ensures refusal.Some? ==> View() == old(View())
    {
      hide Register.Kept, Register.PlanRefusal, Register.InStep, Register.Places, Register.ListsTwice;
      ghost var s := View();
      StoredVersionsAreAccepted(a.id);
      if !Accepted(a) {
        return Some(Register.NotAnAgreement);
      }
      if home != a.garage {
        return Some(Register.GarageMismatch);
      }
      var newest := Register.Latest(versions, a.id);
      if newest.Some? {
        if newest.value.garage != a.garage {
          return Some(Register.HomeMoved);
        }
        if newest.value.registrar != a.registrar {
          return Some(Register.RegistrarChanged);
        }
        if a.version <= newest.value.version {
          return Some(Register.VersionNotNewer);
        }
        if newest.value.payer != a.payer {
          return Some(Register.PayerChanged);
        }
        var overPaid := RefuseNewPauseDays(a.pauses, newest.value.pauses, paid);
        if overPaid {
          return Some(Register.PauseOverPaidDays);
        }
      }
      if exists g :: g in a.covered && g !in garages {
        return Some(Register.GarageNotFound);
      }
      var covered := Register.HomeFirst(a);
      if a.registrar.Outside? {
        rows := Register.ReleaseDropped(rows, a.id, covered);
      } else {
        var before := rows;
        refusal := RegisterVehicles(a.id, covered, a.vehicles, now);
        if refusal.Some? {
          return;
        }
        if Register.ListsTwice(garages, a) {
          rows := before;
          return Some(Register.VehicleListedTwice);
        }
      }
      versions := versions + [a];
      refusal := None;
      SavingKeeps(s, home, a, paid, now);
    }

    lemma SavingKeeps(s: Register.Store, home: GarageId, a: Agreement, paid: seq<Period>, now: Instant)
      requires Register.Kept(s) && Register.Save(s, home, a, paid, now).Ok?
      ensures Register.Kept(Register.Save(s, home, a, paid, now).value)
    {
      if a.registrar.Outside? {
        Register.OutsideSaveKeeps(s, home, a, paid, now);
      } else {
        Register.OwnSaveKeeps(s, home, a, paid, now);
      }
    }

    lemma StoredVersionsAreAccepted(id: AgreementId)
      requires Register.Kept(View())
      ensures Register.Latest(versions, id).Some? ==> EachRuns(Register.Latest(versions, id).value.pauses)
    {
      Register.LatestIsAccepted(View(), id);
    }

    /** `register_from_outside`: the plan for one text, then the writes; nothing is released. */
    method RegisterFromOutside(id: AgreementId, text: string, now: Instant) returns (refusal: Option<Register.Refusal>)
      requires Register.Kept(View())
      modifies this`rows
      ensures Register.Kept(View())
      ensures Register.DoorRegister(old(View()), id, text, now)
              == if refusal.Some? then Refused(refusal.value) else Ok(View())
      ensures refusal.Some? ==> View() == old(View())
    {
      hide Register.Kept, Register.PlanRefusal, Register.Places, Register.Names;
      ghost var s := View();
      var latest := Register.Latest(versions, id);
      if latest.None? {
        return Some(Register.AgreementNotFound);
      }
      if !latest.value.registrar.Outside? {
        return Some(Register.RegistrarIsThisModule);
      }
      var covered := Register.HomeFirst(latest.value);
      var plan := PlanRegistrations(id, covered, [text], now);
      if plan.Refused? {
        return Some(plan.error);
      }
      ClaimEverywhere(plan.value, id, covered, [text], now);
      refusal := None;
      Register.DoorRegisterKeeps(s, id, text, now);
    }

    /** The door's writes: garage by garage, as planned. */
    method ClaimEverywhere(plan: seq<Share>, id: AgreementId, ghost covered: seq<GarageId>, ghost texts: seq<string>,
                           ghost now: Instant)
      requires |plan| == |covered|
      requires forall i :: 0 <= i < |covered| ==> plan[i].garage == covered[i] && Planned(plan[i], id, texts, now)
      modifies this`rows
      ensures rows == Register.Claim(old(rows), id, Register.Places(garages, covered, texts))
    {
      hide Register.Places;
      NoPlaces(texts);
      NothingClaimed(rows, id);
      for i := 0 to |plan|
        invariant rows == Register.Claim(old(rows), id, Register.Places(garages, covered[..i], texts))
      {
        var share := plan[i];
        PlacesOneMore(covered, i, texts, share.listed);
        WriteRegistrations(share, id);
      }
      assert covered[..|covered|] == covered;
    }

    lemma NoPlaces(texts: seq<string>)
      ensures Register.Places(garages, [], texts) == {}
    {}

    lemma PlacesOneMore(covered: seq<GarageId>, i: nat, texts: seq<string>, listed: set<string>)
      requires i < |covered|
      requires forall f :: f in listed
                           <==> Register.Place(covered[i], f) in Register.Places(garages, [covered[i]], texts)
      ensures Register.Places(garages, covered[..i + 1], texts)
              == Register.Places(garages, covered[..i], texts) + (set f | f in listed :: Register.Place(covered[i], f))
    {
      hide Register.Places, Register.Names;
      forall p ensures p in Register.Places(garages, covered[..i + 1], texts)
                       <==> p in Register.Places(garages, covered[..i], texts)
                            || (p.garage == covered[i] && p.form in listed) {
        Register.PlacesAre(garages, covered[..i + 1], texts, p);
        Register.PlacesAre(garages, covered[..i], texts, p);
        Register.PlacesAre(garages, [covered[i]], texts, p);
        assert p == Register.Place(p.garage, p.form);
        assert covered[..i + 1] == covered[..i] + [covered[i]];
      }
    }

    /** The agreement's own row at `g` that the text's form there would take. */
    predicate TakenAt(id: AgreementId, text: string, g: GarageId)
      reads this
    {
      var form := Register.FormAt(garages, g, text);
      form.Some? && Register.Holds(rows, id, Register.Place(g, form.value))
    }

    /** `_refuse_an_ambiguous_release`: for each row the release would take, every row at every other garage. */
    method RefuseAnAmbiguousRelease(id: AgreementId, text: string, covered: seq<GarageId>) returns (ambiguous: bool)
      ensures ambiguous <==> Register.Ambiguous(View(), id, text, covered)
    {
      hide Register.FormAt;
      ambiguous := false;
      for i := 0 to |covered|
        invariant forall k, p: Register.Place :: 0 <= k < i && p in rows && p.garage in covered ==>
                    !Register.AmbiguousAt(View(), id, text, covered[k], p.garage, p.form)
      {
        var g := covered[i];
        if TakenAt(id, text, g) {
          var left := rows.Keys;
          while left != {}
            invariant left <= rows.Keys
            invariant forall p: Register.Place :: p in rows && p !in left && p.garage in covered ==>
                        !Register.AmbiguousAt(View(), id, text, g, p.garage, p.form)
            decreases |left|
          {
            var p :| p in left;
            left := left - {p};
            assert p == Register.Place(p.garage, p.form);
            if p.garage in covered && p.garage != g && rows[p] == id
               && Some(p.form) != Register.FormAt(garages, p.garage, text)
               && Register.FormAt(garages, g, p.form) == Register.FormAt(garages, g, text)
            {
              assert Register.AmbiguousAt(View(), id, text, g, p.garage, p.form);
              return true;
            }
          }
        }
      }
    }

    /** `release_from_outside`: every garage's form and every refusal first, then the deletes. */
    method ReleaseFromOutside(id: AgreementId, text: string, named: Option<GarageId>)
      returns (r: Result<seq<Register.Place>, Register.Refusal>)
      requires Register.Kept(View())
      modifies this`rows
      ensures Register.Kept(View())
      ensures Register.DoorRelease(old(View()), id, text, named) == if r.Refused? then Refused(r.error) else Ok(View())
      ensures r.Refused? ==> View() == old(View())
      ensures r.Ok? ==> r.value != [] && forall p :: p in r.value <==> p in old(rows) && p !in rows
    {
      hide Register.Kept, Register.Places, Register.Names, Register.FormAt, Register.Ambiguous;
      ghost var s := View();
      var latest := Register.Latest(versions, id);
      if latest.None? {
        return Refused(Register.AgreementNotFound);
      }
      if !latest.value.registrar.Outside? {
        return Refused(Register.RegistrarIsThisModule);
      }
      var covered := Register.HomeFirst(latest.value);
      if named.Some? && named.value !in garages {
        return Refused(Register.GarageNotFound);
      }
      if named.Some? && named.value !in covered {
        return Refused(Register.GarageNotCovered);
      }
      var reached := Register.Reached(latest.value, named);
      if Register.FormlessAt(garages, reached, text) {
        return Refused(Register.IdentityEmpty);
      }
      if named.None? {
        var ambiguous := RefuseAnAmbiguousRelease(id, text, covered);
        if ambiguous {
          return Refused(Register.ReleaseAmbiguous);
        }
      }
      var released := DeleteForms(id, text, reached);
      if released == [] {
        assert Register.Named(s, id, text, reached) == {};
        assert rows == s.rows;
        return Refused(Register.NotRegistered);
      }
      assert Register.Named(s, id, text, reached) != {} by {
        assert released[0] in Register.Named(s, id, text, reached);
      }
      r := Ok(released);
      Register.DoorReleaseKeeps(s, id, text, named);
    }

    /** The deletes of a release: at each garage the text's own row, where the agreement holds one. */
    method DeleteForms(id: AgreementId, text: string, reached: seq<GarageId>) returns (released: seq<Register.Place>)
      requires forall i :: 0 <= i < |reached| ==> Register.FormAt(garages, reached[i], text).Some?
      modifies this`rows
      ensures rows == old(rows) - Register.Named(old(View()), id, text, reached)
      ensures forall p :: p in released <==> p in Register.Named(old(View()), id, text, reached)
    {
      hide Register.Places, Register.Names, Register.FormAt;
      released := [];
      NoPlaces([text]);
      for i := 0 to |reached|
        invariant rows == old(rows) - Register.Named(old(View()), id, text, reached[..i])
        invariant forall p :: p in released <==> p in Register.Named(old(View()), id, text, reached[..i])
      {
        var p := Register.Place(reached[i], Register.FormAt(garages, reached[i], text).value);
        NamedOneMore(old(View()), id, text, reached, i);
        if Register.Holds(rows, id, p) {
          rows := rows - {p};
          released := released + [p];
        }
      }
      assert reached[..|reached|] == reached;
    }

    static lemma NamedOneMore(s: Register.Store, id: AgreementId, text: string, reached: seq<GarageId>, i: nat)
      requires i < |reached| && Register.FormAt(s.garages, reached[i], text).Some?
      ensures var p := Register.Place(reached[i], Register.FormAt(s.garages, reached[i], text).value);
              Register.Named(s, id, text, reached[..i + 1])
              == Register.Named(s, id, text, reached[..i]) + (if Register.Holds(s.rows, id, p) then {p} else {})
    {
      hide Register.Places, Register.FormAt;
      var own := Register.Place(reached[i], Register.FormAt(s.garages, reached[i], text).value);
      assert reached[..i + 1] == reached[..i] + [reached[i]];
      forall p ensures p in Register.Places(s.garages, reached[..i + 1], [text])
                       <==> p in Register.Places(s.garages, reached[..i], [text]) || p == own {
        Register.PlacesAre(s.garages, reached[..i + 1], [text], p);
        Register.PlacesAre(s.garages, reached[..i], [text], p);
        assert Register.Names(s.garages, [text], p)
               <==> Register.FormAt(s.garages, p.garage, [text][0]) == Some(p.form);
      }
    }
  }
}
