/** What a release at the door takes and what it leaves: `release_from_outside` and its ambiguity check, in
    `store/records.py`, over garages that fold one text differently. */
module Releases {
  import opened Garages
  import opened Agreements
  import opened Register
  import opened Options

  function CoveredBy(s: Store, id: AgreementId): seq<GarageId> {
    match Latest(s.versions, id)
    case None => []
    case Some(l) => HomeFirst(l)
  }

  /** The text's own place at a garage. */
  predicate IsTheTexts(s: Store, text: string, p: Place) {
    FormAt(s.garages, p.garage, text) == Some(p.form)
  }

  /** A release that is not refused takes exactly the text's own row at each garage it reaches that held one for
      the agreement, and leaves every other row, whoever holds it. */
  lemma ReleaseTakesItsOwn(s: Store, id: AgreementId, text: string, named: Option<GarageId>, p: Place)
    requires DoorRelease(s, id, text, named).Ok?
    ensures var rows := DoorRelease(s, id, text, named).value.rows;
            var taken := Holds(s.rows, id, p) && IsTheTexts(s, text, p)
                         && (if named.Some? then p.garage == named.value else p.garage in CoveredBy(s, id));
            if p in s.rows && !taken then p in rows && rows[p] == s.rows[p] else p !in rows
  {
    hide Places, FormAt, Ambiguous, HomeFirst;
    var reached := if named.Some? then [named.value] else CoveredBy(s, id);
    var after := DoorRelease(s, id, text, named).value;
    assert after.rows == s.rows - Named(s, id, text, reached);
    PlacesAre(s.garages, reached, [text], p);
    assert Names(s.garages, [text], p) <==> FormAt(s.garages, p.garage, [text][0]) == Some(p.form);
  }

  /** What the unnamed release leaves standing at another garage, it leaves covered here: a row that is the fold
      at `g` of a row still held at `h` is never taken. */
  lemma ReleaseKeepsTheFoldsOfOthers(s: Store, id: AgreementId, text: string, g: GarageId, h: GarageId, m: string,
                                     f: string)
    requires DoorRelease(s, id, text, None).Ok?
    requires g in CoveredBy(s, id) && h in CoveredBy(s, id) && g != h
    requires Holds(DoorRelease(s, id, text, None).value.rows, id, Place(h, m))
    requires FormAt(s.garages, g, m) == Some(f) && Holds(s.rows, id, Place(g, f))
    ensures Holds(DoorRelease(s, id, text, None).value.rows, id, Place(g, f))
  {
    ReleaseTakesItsOwn(s, id, text, None, Place(g, f));
    ReleaseTakesItsOwn(s, id, text, None, Place(h, m));
    hide Places, FormAt, HomeFirst, Named;
    var covered := CoveredBy(s, id);
    assert !Ambiguous(s, id, text, covered);
    assert !AmbiguousAt(s, id, text, g, Place(h, m).garage, Place(h, m).form);
  }

  /** An agreement at one garage is never refused as ambiguous, whatever it holds. */
  lemma OneGarageIsNeverAmbiguous(s: Store, id: AgreementId, text: string, named: Option<GarageId>)
    requires forall g, h :: g in CoveredBy(s, id) && h in CoveredBy(s, id) ==> g == h
    ensures DoorRelease(s, id, text, named) != Refused(ReleaseAmbiguous)
  {
    hide Places, FormAt, HomeFirst, Named;
    assert !Ambiguous(s, id, text, CoveredBy(s, id));
    assert Latest(s.versions, id).Some? ==> HomeFirst(Latest(s.versions, id).value) == CoveredBy(s, id);
  }

  /** Over canonical rows it takes two rules to be ambiguous: a folding garage, and an exact one that still has
      the row under another spelling. */
  lemma AmbiguityNeedsTwoRules(s: Store, id: AgreementId, text: string, g: GarageId, h: GarageId, m: string)
    requires Kept(s) && AmbiguousAt(s, id, text, g, h, m) && FormAt(s.garages, h, text).Some?
    ensures g in s.garages && h in s.garages
    ensures s.garages[g].rule.FoldedAlphanumeric? && s.garages[h].rule.Exact?
  {
    assert RowInStep(s, Place(h, m));
    NormaliseIsIdempotent(FoldedAlphanumeric, text);
  }

  /** Whether, for a text new at every covered garage, some row already held folds to it elsewhere. */
  ghost predicate FoldsToAnother(s: Store, id: AgreementId, text: string) {
    exists g, p :: g in CoveredBy(s, id) && Holds(s.rows, id, p) && p.garage in CoveredBy(s, id) && p.garage != g
                   && FormAt(s.garages, g, p.form) == FormAt(s.garages, g, text)
  }

  /** Registering a text new at every covered garage and releasing it again restores the register exactly --
      unless a row already held at one garage folds to the text at another, and exactly then it is refused. */
  lemma RegisterThenRelease(s: Store, id: AgreementId, text: string, now: Instant)
    requires DoorRegister(s, id, text, now).Ok?
    requires forall p :: p in s.rows && p.garage in CoveredBy(s, id) ==> !IsTheTexts(s, text, p)
    ensures DoorRelease(DoorRegister(s, id, text, now).value, id, text, None)
            == if FoldsToAnother(s, id, text) then Refused(ReleaseAmbiguous) else Ok(s)
  {
    hide Places, FormAt, PlanRefusal, Ambiguous, Latest, IsTheTexts, FoldsToAnother, Named, HomeFirst;
    var registered, covered := DoorRegister(s, id, text, now).value, CoveredBy(s, id);
    Registered(s, id, text, now);
    AmbiguousAfterRegistering(s, registered, id, text);
    NothingLeftToTake(s, registered, id, text);
  }

  /** What a registration has added: the text's place at each covered garage. */
  ghost predicate HasAdded(s: Store, registered: Store, id: AgreementId, text: string) {
    registered == s.(rows := registered.rows) && CoveredBy(s, id) != []
    && (forall g :: g in CoveredBy(s, id) ==> FormAt(s.garages, g, text).Some?)
    && (forall p :: p in registered.rows <==> p in s.rows || (p.garage in CoveredBy(s, id) && IsTheTexts(s, text, p)))
    && (forall p :: p in registered.rows ==>
          registered.rows[p] == if p.garage in CoveredBy(s, id) && IsTheTexts(s, text, p) then id else s.rows[p])
  }

  lemma Registered(s: Store, id: AgreementId, text: string, now: Instant)
    requires DoorRegister(s, id, text, now).Ok?
    ensures HasAdded(s, DoorRegister(s, id, text, now).value, id, text)
    ensures Latest(s.versions, id).Some? && Latest(s.versions, id).value.registrar.Outside?
  {
    hide Places, FormAt, Takeable, PlanRefusal;
    var covered := CoveredBy(s, id);
    PlanPasses(s, id, covered, [text], now);
    assert forall g :: g in covered ==> FormAt(s.garages, g, [text][0]).Some?;
    forall p ensures p in Places(s.garages, covered, [text]) <==> p.garage in covered && IsTheTexts(s, text, p) {
      PlacesAre(s.garages, covered, [text], p);
      assert Names(s.garages, [text], p) <==> FormAt(s.garages, p.garage, [text][0]) == Some(p.form);
    }
  }

  lemma AmbiguousAfterRegistering(s: Store, registered: Store, id: AgreementId, text: string)
    requires HasAdded(s, registered, id, text)
    requires forall p :: p in s.rows && p.garage in CoveredBy(s, id) ==> !IsTheTexts(s, text, p)
    ensures Ambiguous(registered, id, text, CoveredBy(s, id)) <==> FoldsToAnother(s, id, text)
  {
    hide FormAt, HomeFirst, Latest;
    var covered := CoveredBy(s, id);
    if FoldsToAnother(s, id, text) {
      var g, p :| g in covered && Holds(s.rows, id, p) && p.garage in covered && p.garage != g
                  && FormAt(s.garages, g, p.form) == FormAt(s.garages, g, text);
      var own := Place(g, FormAt(s.garages, g, text).value);
      assert IsTheTexts(s, text, own) && Holds(registered.rows, id, own);
      assert !IsTheTexts(s, text, p);
      assert AmbiguousAt(registered, id, text, g, p.garage, p.form);
    }
    if Ambiguous(registered, id, text, covered) {
      var g, p :| g in covered && p in registered.rows && p.garage in covered
                  && AmbiguousAt(registered, id, text, g, p.garage, p.form);
      assert Place(p.garage, p.form) == p && Holds(s.rows, id, p);
    }
  }

  lemma NothingLeftToTake(s: Store, registered: Store, id: AgreementId, text: string)
    requires HasAdded(s, registered, id, text)
    requires forall p :: p in s.rows && p.garage in CoveredBy(s, id) ==> !IsTheTexts(s, text, p)
    ensures registered.rows - Named(registered, id, text, CoveredBy(s, id)) == s.rows
    ensures Named(registered, id, text, CoveredBy(s, id)) != {}
  {
    hide Places, FormAt, HomeFirst, Latest;
    var covered := CoveredBy(s, id);
    forall p ensures p in Named(registered, id, text, covered) <==> p.garage in covered && IsTheTexts(s, text, p) {
      PlacesAre(s.garages, covered, [text], p);
      assert Names(s.garages, [text], p) <==> FormAt(s.garages, p.garage, [text][0]) == Some(p.form);
    }
    var own := Place(covered[0], FormAt(s.garages, covered[0], text).value);
    assert IsTheTexts(s, text, own);
  }
}
