/** The coverage answer of `entitlement.py`, asked of documents, and of `entitlement_store.py`, asked of the store
    by way of the vehicle register. */
module Coverage {
  import opened Calendar
  import opened Garages
  import opened Agreements
  import Ledger
  import opened Register
  import opened Options

  datatype Reason =
    | NoAgreement | NotStarted | CancelledByNow | PausedToday | BlockedByOwner | UnpaidPastGrace | OutsideAccessHours

  /** The agreement version an answer rests on. */
  datatype Cited = Cited(id: AgreementId, version: int)

  datatype Verdict =
    | NotCovered(reason: Reason, cited: Option<Cited>)
    | Covered(entitlement: int, who: Cited, exitUnchecked: bool)

  datatype Fault = TwoAgreements | RegistrationsNotGiven | HomeGarageNotGiven | IdentityEmpty | GarageNotFound

  type Answer = Result<Verdict, Fault>

  // ---------------------------------------------------------------- which agreement

  /** The identities among the versions handed in, in the order each was first seen. */
  function FirstSeen(agreements: seq<Agreement>): seq<AgreementId> {
    if agreements == [] then []
    else
      var front, id := FirstSeen(agreements[..|agreements| - 1]), agreements[|agreements| - 1].id;
      if id in front then front else front + [id]
  }

  /** `_latest_per_identity`: the highest version of each, whatever order the versions come in. */
  method LatestPerIdentity(agreements: seq<Agreement>) returns (latest: map<AgreementId, Agreement>)
    ensures forall id: AgreementId :: Latest(agreements, id) == if id in latest then Some(latest[id]) else None
  {
    latest := map[];
    for i := 0 to |agreements|
      invariant forall id: AgreementId :: Latest(agreements[..i], id) == if id in latest then Some(latest[id]) else None
    {
      var a := agreements[i];
      assert agreements[..i + 1][..i] == agreements[..i];
      if a.id !in latest || a.version > latest[a.id].version {
        latest := latest[a.id := a];
      }
    }
    assert agreements[..|agreements|] == agreements;
  }

  /** The vehicles that belong to an agreement at the asking garage: `register_of`. */
  function RegisterOf(a: Agreement, registrations: Option<map<AgreementId, seq<string>>>): Result<seq<string>, Fault> {
    if a.registrar.ThisModule? then Ok(a.vehicles)
    else if registrations.None? then Refused(RegistrationsNotGiven)
    else Ok(if a.id in registrations.value then registrations.value[a.id] else [])
  }

  /** Whether some text of a register is the vehicle, in order; a text that comes to nothing stops the walk. */
  function AnyMatch(rule: IdentityRule, register: seq<string>, identity: string): Result<bool, Fault> {
    if register == [] then Ok(false)
    else match IdentitiesMatch(rule, register[0], identity)
      case None => Refused(Fault.IdentityEmpty)
      case Some(true) => Ok(true)
      case Some(false) => AnyMatch(rule, register[1..], identity)
  }

  function Belongs(g: Garage, a: Agreement, identity: string,
                   registrations: Option<map<AgreementId, seq<string>>>): Result<bool, Fault>
  {
    match RegisterOf(a, registrations)
    case Refused(f) => Refused(f)
    case Ok(register) => AnyMatch(g.rule, register, identity)
  }

  /** The agreements that cover the asking garage and have the vehicle, among identities at their latest version. */
  function Mine(g: Garage, agreements: seq<Agreement>, ids: seq<AgreementId>, identity: string,
                registrations: Option<map<AgreementId, seq<string>>>): Result<seq<Agreement>, Fault>
  {
    if ids == [] then Ok([])
    else
      match Mine(g, agreements, ids[..|ids| - 1], identity, registrations)
      case Refused(f) => Refused(f)
      case Ok(found) =>
        var latest := Latest(agreements, ids[|ids| - 1]);
        if latest.None? || !latest.value.CoversGarage(g.id) then Ok(found)
        else match Belongs(g, latest.value, identity, registrations)
          case Refused(f) => Refused(f)
          case Ok(belongs) => Ok(if belongs then found + [latest.value] else found)
  }

  // ---------------------------------------------------------------- the judgement

  /** The owner's and the payer's side of the question: the earliest unpaid invoice, the block, the home. */
  datatype Standing = Standing(unpaidSince: Option<Instant>, blocked: bool, home: Option<Garage>)

  function HomeOf(a: Agreement, g: Garage, home: Option<Garage>): Result<Garage, Fault> {
    if home.None? then (if a.garage == g.id then Ok(g) else Refused(HomeGarageNotGiven))
    else if home.value.id != a.garage then Refused(HomeGarageNotGiven)
    else Ok(home.value)
  }

  predicate Later(a: LocalTime, b: LocalTime) {
    a.day > b.day || (a.day == b.day && a.time > b.time)
  }

  /** The latest reading a stay may leave by: on the entry's day, or the next when the hours run past midnight. */
  function ExitLimit(entry: LocalTime, hours: AccessHours): LocalTime {
    LocalTime(entry.day + (if hours.exitBy < hours.entryFrom then 1 else 0), hours.exitBy)
  }

  function JudgeHours(g: Garage, a: Agreement, at: Instant, enteredAt: Option<Instant>): Verdict {
    var who := Cited(a.id, a.version);
    match a.hours
    case None => Covered(a.spots, who, false)
    case Some(hours) =>
      match enteredAt
      case None =>
        if g.zone.local(at).time < hours.entryFrom then NotCovered(OutsideAccessHours, Some(who))
        else Covered(a.spots, who, true)
      case Some(entered) =>
        var entry := g.zone.local(entered);
        if entry.time < hours.entryFrom || Later(g.zone.local(at), ExitLimit(entry, hours))
        then NotCovered(OutsideAccessHours, Some(who))
        else Covered(a.spots, who, false)
  }

  function Judge(g: Garage, a: Agreement, at: Instant, enteredAt: Option<Instant>, standing: Standing): Answer {
    var today, who := g.zone.DayOf(at), Some(Cited(a.id, a.version));
    if today < a.startDay then Ok(NotCovered(NotStarted, who))
    else if a.status.Cancelled? && a.cancelledDay.Some? && today >= a.cancelledDay.value then
      Ok(NotCovered(CancelledByNow, who))
    else if a.IsPausedOn(today) then Ok(NotCovered(PausedToday, who))
    else if standing.blocked then Ok(NotCovered(BlockedByOwner, who))
    else match standing.unpaidSince
      case None => Ok(JudgeHours(g, a, at, enteredAt))
      case Some(since) =>
        match HomeOf(a, g, standing.home)
        case Refused(f) => Refused(f)
        case Ok(home) =>
          if home.zone.DayOf(at) - home.zone.DayOf(since) > home.graceDays then Ok(NotCovered(UnpaidPastGrace, who))
          else Ok(JudgeHours(g, a, at, enteredAt))
  }

  /** `is_covered`. */
  function IsCovered(g: Garage, agreements: seq<Agreement>, identity: string, at: Instant, enteredAt: Option<Instant>,
                     standing: Standing, registrations: Option<map<AgreementId, seq<string>>>): Answer
  {
    match Mine(g, agreements, FirstSeen(agreements), identity, registrations)
    case Refused(f) => Refused(f)
    case Ok(mine) =>
      if mine == [] then Ok(NotCovered(NoAgreement, None))
      else if |mine| > 1 then Refused(TwoAgreements)
      else Judge(g, mine[0], at, enteredAt, standing)
  }

  // ---------------------------------------------------------------- what the store says of an agreement's standing

  /** An invoice, as far as coverage reads it. */
  datatype Bill = Bill(payer: PayerId, garage: GarageId, periodStart: Day, dueAt: Instant, paid: bool)

  datatype Attached = ToAgreement(id: AgreementId) | ToBill(index: nat)

  datatype Decision = Decision(on: Attached, kind: Ledger.ExceptionKind, extraDays: nat, recordedAt: Instant)

  /** The money side of the store: invoices, and the owner's decisions in the order they were recorded. */
  datatype Accounts = Accounts(bills: seq<Bill>, decisions: seq<Decision>)

  predicate Unpaid(b: Bill, payer: PayerId, home: GarageId) {
    b.payer == payer && b.garage == home && !b.paid
  }

  /** `_earliest_unpaid_due_at`. */
  function EarliestUnpaid(bills: seq<Bill>, payer: PayerId, home: GarageId): Option<Instant> {
    if bills == [] then None
    else
      var front, last := EarliestUnpaid(bills[..|bills| - 1], payer, home), bills[|bills| - 1];
      if !Unpaid(last, payer, home) then front
      else if front.Some? && front.value <= last.dueAt then front
      else Some(last.dueAt)
  }

  /** A decision on the agreement, by its identity; or on one of the payer's invoices at the home, a block or an
      unblock whatever its state, a grace extension only while it is unpaid. */
  predicate Concerns(bills: seq<Bill>, d: Decision, id: AgreementId, payer: PayerId, home: GarageId) {
    match d.on
    case ToAgreement(agreement) => agreement == id
    case ToBill(i) => i < |bills| && bills[i].payer == payer && bills[i].garage == home
                      && (!bills[i].paid || d.kind.Block? || d.kind.Unblock?)
  }

  /** `_exceptions_for`. */
  function DecisionsFor(accounts: Accounts, decisions: seq<Decision>, id: AgreementId, payer: PayerId,
                        home: GarageId): seq<Decision>
  {
    if decisions == [] then []
    else
      var last := decisions[|decisions| - 1];
      DecisionsFor(accounts, decisions[..|decisions| - 1], id, payer, home)
      + (if Concerns(accounts.bills, last, id, payer, home) then [last] else [])
  }

  /** `applied_grace_days`: extensions add. */
  function AppliedGraceDays(base: int, decisions: seq<Decision>): int {
    if decisions == [] then base
    else
      var last := decisions[|decisions| - 1];
      AppliedGraceDays(base, decisions[..|decisions| - 1]) + (if last.kind.ExtendGrace? then last.extraDays else 0)
  }

  /** The latest block or unblock by the owner's own instants; of equal instants, the one first in order. */
  function LastWord(decisions: seq<Decision>): Option<Decision> {
    if decisions == [] then None
    else
      var front, last := LastWord(decisions[..|decisions| - 1]), decisions[|decisions| - 1];
      if !last.kind.Block? && !last.kind.Unblock? then front
      else if front.Some? && front.value.recordedAt >= last.recordedAt then front
      else Some(last)
  }

  /** `is_blocked`. */
  predicate IsBlocked(decisions: seq<Decision>) {
    LastWord(decisions).Some? && LastWord(decisions).value.kind.Block?
  }

  function StandingOf(s: Store, accounts: Accounts, a: Agreement): Standing
    requires a.garage in s.garages
  {
    var decisions := DecisionsFor(accounts, accounts.decisions, a.id, a.payer, a.garage);
    var home := s.garages[a.garage];
    Standing(EarliestUnpaid(accounts.bills, a.payer, a.garage), IsBlocked(decisions),
             Some(home.(graceDays := AppliedGraceDays(home.graceDays, decisions))))
  }

  // ---------------------------------------------------------------- the store-backed call

  /** The agreement whose latest version covers the garage and is the row's holder, if the vehicle is its. */
  function Chosen(s: Store, g: Garage, identity: string, holder: AgreementId,
                  form: string): Result<Option<Agreement>, Fault>
  {
    var latest := Latest(s.versions, holder);
    if latest.None? || !latest.value.CoversGarage(g.id) then Ok(None)
    else match Belongs(g, latest.value, identity, Some(map[holder := [form]]))
      case Refused(f) => Refused(f)
      case Ok(belongs) => Ok(if belongs then latest else None)
  }

  /** `covered_from_store`. */
  function CoveredFromStore(s: Store, accounts: Accounts, garage: GarageId, identity: string, at: Instant,
                            enteredAt: Option<Instant>): Answer
  {
    if garage !in s.garages then Refused(Fault.GarageNotFound)
    else
      var g := s.garages[garage];
      match FormAt(s.garages, garage, identity)
      case None => Refused(Fault.IdentityEmpty)
      case Some(form) =>
        var unknown := Standing(None, false, None);
        if Place(garage, form) !in s.rows then IsCovered(g, [], identity, at, enteredAt, unknown, Some(map[]))
        else
          var holder := s.rows[Place(garage, form)];
          var stated := Some(map[holder := [form]]);
          match Chosen(s, g, identity, holder, form)
          case Refused(f) => Refused(f)
          case Ok(None) => IsCovered(g, [], identity, at, enteredAt, unknown, stated)
          case Ok(Some(a)) =>
            if a.garage !in s.garages then Refused(Fault.GarageNotFound)
            else IsCovered(g, [a], identity, at, enteredAt, StandingOf(s, accounts, a), stated)
  }

  // ---------------------------------------------------------------- what the readings mean

  /** Leaving earlier never loses coverage, and a stay covered on leaving was covered on arriving. */
  lemma ExitCoveredMeansEntryCovered(g: Garage, a: Agreement, entered: Instant, at: Instant, earlier: Instant)
    requires JudgeHours(g, a, at, Some(entered)).Covered?
    ensures JudgeHours(g, a, entered, None) == Covered(a.spots, Cited(a.id, a.version), a.hours.Some?)
    ensures !Later(g.zone.local(earlier), g.zone.local(at)) ==> JudgeHours(g, a, earlier, Some(entered)).Covered?
  {}

  /** The hours are on dated times: under day hours no stay reaches past its day's limit or another day; under
      hours past midnight the whole evening is covered, and the next day up to the limit, and never a second night. */
  lemma StaysWithinTheHours(g: Garage, a: Agreement, entered: Instant, at: Instant)
    requires a.hours.Some? && g.zone.local(entered).time >= a.hours.value.entryFrom
    ensures var entry, leave, hours := g.zone.local(entered), g.zone.local(at), a.hours.value;
            JudgeHours(g, a, at, Some(entered)).Covered?
            <==> if hours.entryFrom <= hours.exitBy
                 then leave.day < entry.day || (leave.day == entry.day && leave.time <= hours.exitBy)
                 else leave.day <= entry.day || (leave.day == entry.day + 1 && leave.time <= hours.exitBy)
  {}

  /** The earliest due instant is an unpaid invoice's, and no unpaid invoice's is before it. */
  lemma {:induction false} EarliestUnpaidIsFirst(bills: seq<Bill>, payer: PayerId, home: GarageId)
    ensures match EarliestUnpaid(bills, payer, home)
            case None => forall i :: 0 <= i < |bills| ==>
                           !(bills[i].payer == payer && bills[i].garage == home && !bills[i].paid)
            case Some(due) => (exists i :: 0 <= i < |bills| && bills[i].payer == payer && bills[i].garage == home
                                           && !bills[i].paid && bills[i].dueAt == due)
                              && (forall i :: 0 <= i < |bills| ==>
                                    !(bills[i].payer == payer && bills[i].garage == home && !bills[i].paid)
                                    || due <= bills[i].dueAt)
  {
    if bills != [] {
      var front := bills[..|bills| - 1];
      EarliestUnpaidIsFirst(front, payer, home);
      if EarliestUnpaid(front, payer, home).Some? {
        var i :| 0 <= i < |front| && front[i].payer == payer && front[i].garage == home && !front[i].paid
                 && front[i].dueAt == EarliestUnpaid(front, payer, home).value;
        assert bills[i] == front[i];
      }
      assert Unpaid(bills[|bills| - 1], payer, home) || !Unpaid(bills[|bills| - 1], payer, home);
      assert forall i :: 0 <= i < |front| ==> front[i] == bills[i];
    }
  }

  predicate IsBlockOrUnblock(d: Decision) {
    d.kind.Block? || d.kind.Unblock?
  }

  /** The decision at `i` is the owner's last word: none later, and none as late that stands before it. */
  predicate IsLastWord(decisions: seq<Decision>, i: nat) {
    i < |decisions| && IsBlockOrUnblock(decisions[i])
    && forall j :: 0 <= j < |decisions| && IsBlockOrUnblock(decisions[j]) ==>
         decisions[j].recordedAt < decisions[i].recordedAt
         || (decisions[j].recordedAt == decisions[i].recordedAt && i <= j)
  }

  /** Blocked exactly when the owner's latest decision, by the owner's instants and not by storage order, is a block. */
  lemma {:induction false} BlockedByTheLastWord(decisions: seq<Decision>)
    ensures match LastWord(decisions)
            case None => forall i :: 0 <= i < |decisions| ==> !IsBlockOrUnblock(decisions[i])
            case Some(d) => exists i: nat :: IsLastWord(decisions, i) && decisions[i] == d
    ensures IsBlocked(decisions) <==> exists i: nat :: IsLastWord(decisions, i) && decisions[i].kind.Block?
  {
    if decisions != [] {
      var front, last := decisions[..|decisions| - 1], decisions[|decisions| - 1];
      BlockedByTheLastWord(front);
      assert forall i :: 0 <= i < |front| ==> front[i] == decisions[i];
      if LastWord(front).Some? {
        var i: nat :| IsLastWord(front, i) && front[i] == LastWord(front).value;
        assert decisions[i] == front[i];
        var newer := IsBlockOrUnblock(last) && last.recordedAt > front[i].recordedAt;
        assert if newer then IsLastWord(decisions, |front|) else IsLastWord(decisions, i);
      } else if IsBlockOrUnblock(last) {
        assert IsLastWord(decisions, |front|);
      }
    }
  }

  /** Extensions add, whatever else is among the decisions and wherever they are cut. */
  lemma {:induction false} ExtensionsAdd(base: int, earlier: seq<Decision>, later: seq<Decision>)
    ensures AppliedGraceDays(base, earlier + later) == AppliedGraceDays(AppliedGraceDays(base, earlier), later)
    ensures AppliedGraceDays(base, []) == base
    ensures forall d: Decision :: AppliedGraceDays(base, [d])
                                  == (if d.kind == Ledger.ExtendGrace then base + d.extraDays else base)
    ensures AppliedGraceDays(base, later) >= base
    ensures forall i :: 0 <= i < |later| && later[i].kind.ExtendGrace? ==>
                          AppliedGraceDays(base, later) >= base + later[i].extraDays
  {
    forall d: Decision ensures [d][..0] == [] {}
    if later == [] {
      assert earlier + later == earlier;
    } else {
      ExtensionsAdd(base, earlier, later[..|later| - 1]);
      assert (earlier + later)[..|earlier + later| - 1] == earlier + later[..|later| - 1];
      assert forall i :: 0 <= i < |later| - 1 ==> later[..|later| - 1][i] == later[i];
    }
  }

  /** What is read of the owner's decisions: every one that concerns the agreement and nothing else, as often and in
      the order they are in. */
  lemma {:induction false} DecisionsForAreThose(accounts: Accounts, earlier: seq<Decision>, d: Decision,
                                                later: seq<Decision>, id: AgreementId, payer: PayerId, home: GarageId)
    ensures DecisionsFor(accounts, earlier + [d] + later, id, payer, home)
            == DecisionsFor(accounts, earlier, id, payer, home)
               + (if d.on == ToAgreement(id)
                     || (exists i: nat :: i < |accounts.bills| && d.on == ToBill(i)
                                          && accounts.bills[i].payer == payer && accounts.bills[i].garage == home
                                          && (!accounts.bills[i].paid || d.kind == Ledger.Block
                                              || d.kind == Ledger.Unblock))
                  then [d] else [])
               + DecisionsFor(accounts, later, id, payer, home)
  {
    var all := earlier + [d] + later;
    if later == [] {
      assert all == earlier + [d] && all[..|all| - 1] == earlier;
    } else {
      DecisionsForAreThose(accounts, earlier, d, later[..|later| - 1], id, payer, home);
      assert all[..|all| - 1] == earlier + [d] + later[..|later| - 1];
    }
  }
}
