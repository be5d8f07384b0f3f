/** The invoice lock of `store/postgres.py`, step by step: `locked_invoice` takes the row lock before anything is
    read, every event reads, writes and derives inside it, and anything raised rolls back and lets go.

    A commit lands rows the way a database does: what the session appended is appended to whatever is committed
    by then, and `paid_at` is overwritten if the session updated it. Nothing here assumes that a session's view
    is still current when it commits; that it is, is what the lock is for. */
module Sessions {
  import opened Garages
  import opened Lines
  import opened Taxes
  import opened ChargeLog
  import opened Ledger
  import opened Options

  type SessionId = int

  datatype Phase =
    | Locked(event: Event)
    | HasRead(event: Event, seen: Books)
    | HasWritten(event: Event, seen: Books, rows: Books)
    | HasDerived(event: Event, seen: Books, rows: Books)

  /** `history` is the events committed so far, in commit order. */
  datatype Store = Store(committed: Books, holder: Option<SessionId>, sessions: map<SessionId, Phase>,
                         history: seq<Event>)

  datatype Step =
    | Enter(session: SessionId, event: Event)
    | Read(session: SessionId)
    | Write(session: SessionId)
    | Derive(session: SessionId)
    | Commit(session: SessionId)
    | Raise(session: SessionId)

  /** The rows of `ours` beyond `seen`, on top of `theirs`. */
  function Merge(theirs: Books, seen: Books, ours: Books): Books
    requires Extends(seen, ours)
  {
    theirs.(
      lines := theirs.lines + ours.lines[|seen.lines|..],
      payments := theirs.payments + ours.payments[|seen.payments|..],
      reversals := theirs.reversals + (ours.reversals - seen.reversals.Keys),
      exceptions := theirs.exceptions + ours.exceptions[|seen.exceptions|..],
      log := theirs.log + ours.log[|seen.log|..],
      paidAt := if ours.paidAt != seen.paidAt then ours.paidAt else theirs.paidAt)
  }

  /** Money history is append-only: rows are added and none is changed. */
  predicate Extends(seen: Books, ours: Books) {
    seen.lines <= ours.lines && seen.payments <= ours.payments && seen.exceptions <= ours.exceptions
    && seen.log <= ours.log
    && seen.reversals.Keys <= ours.reversals.Keys
    && (forall i :: i in seen.reversals ==> ours.reversals[i] == seen.reversals[i])
    && ours.dueAt == seen.dueAt && ours.taxSet == seen.taxSet
  }

  /** Which events call `rederive_paid_at`. */
  predicate Derives(seen: Books, e: Event, rows: Books) {
    e.Received? || e.Reversed? || e.Excepted? || rows.payments != seen.payments
  }

  function WithoutSession(w: Store, s: SessionId): Store {
    w.(sessions := w.sessions - {s}, holder := if w.holder == Some(s) then None else w.holder)
  }

  /** One step of one session; a step that is not enabled changes nothing. */
  function Do(engine: Engine, w: Store, step: Step): Store {
    match step
    case Enter(s, e) =>
      if w.holder.Some? || s in w.sessions then w
      else w.(holder := Some(s), sessions := w.sessions[s := Locked(e)])
    case Read(s) =>
      if s in w.sessions && w.sessions[s].Locked? then
        w.(sessions := w.sessions[s := HasRead(w.sessions[s].event, w.committed)])
      else w
    case Write(s) =>
      if s in w.sessions && w.sessions[s].HasRead? then
        var HasRead(e, seen) := w.sessions[s];
        match Post(engine, seen, e)
        case Refused(_) => WithoutSession(w, s)
        case Ok(after) => w.(sessions := w.sessions[s := HasWritten(e, seen, after.(paidAt := seen.paidAt))])
      else w
    case Derive(s) =>
      if s in w.sessions && w.sessions[s].HasWritten? then
        var HasWritten(e, seen, rows) := w.sessions[s];
        var paidAt := if Derives(seen, e, rows) && Extends(seen, rows)
                      then Rederive(Merge(w.committed, seen, rows), EventAt(e)).paidAt else rows.paidAt;
        w.(sessions := w.sessions[s := HasDerived(e, seen, rows.(paidAt := paidAt))])
      else w
    case Commit(s) =>
      if s in w.sessions && w.sessions[s].HasDerived? && Extends(w.sessions[s].seen, w.sessions[s].rows) then
        var HasDerived(e, seen, rows) := w.sessions[s];
        WithoutSession(w, s).(committed := Merge(w.committed, seen, rows), history := w.history + [e])
      else w
    case Raise(s) => if s in w.sessions then WithoutSession(w, s) else w
  }

  function Interleaved(engine: Engine, w: Store, steps: seq<Step>): Store {
    if steps == [] then w
    else Do(engine, Interleaved(engine, w, steps[..|steps| - 1]), steps[|steps| - 1])
  }

  function Opened(issued: Books): Store {
    Store(issued, None, map[], [])
  }

  // ---------------------------------------------------------------- what the lock gives

  lemma MergeOntoTheSame(seen: Books, ours: Books)
    requires Extends(seen, ours)
    ensures Merge(seen, seen, ours) == ours
  {
    assert seen.reversals + (ours.reversals - seen.reversals.Keys) == ours.reversals;
  }

  lemma EventsAppend(engine: Engine, b: Books, e: Event)
    requires Post(engine, b, e).Ok?
    ensures Extends(b, Post(engine, b, e).value)
  {
    hide CompensatingLines, AdjustmentLine, UnreversedSum, TotalMinor, SubtotalMinor, Pending, LastKind, Reserved,
         Recorded, RefuseUnlessChargeable;
    if e.Asked? {
      assert Post(engine, b, e).value.log[..|b.log|] == b.log;
    }
  }

  /** A session's books at each phase, when what it read is still what is committed. */
  ghost predicate Current(engine: Engine, committed: Books, p: Phase) {
    match p
    case Locked(_) => true
    case HasRead(_, seen) => seen == committed
    case HasWritten(e, seen, rows) =>
      seen == committed && Post(engine, seen, e).Ok? && rows == Post(engine, seen, e).value.(paidAt := seen.paidAt)
    case HasDerived(e, seen, rows) =>
      seen == committed && Post(engine, seen, e).Ok? && rows == Post(engine, seen, e).value
  }

  /** Only the holder is inside, and nothing it read has moved. */
  ghost predicate Serial(engine: Engine, issued: Books, w: Store) {
    w.sessions.Keys == (if w.holder.Some? then {w.holder.value} else {})
    && (forall s :: s in w.sessions ==> Current(engine, w.committed, w.sessions[s]))
    && w.committed == Run(engine, issued, w.history)
  }

  /** Deriving from the session's own rows gives the event's `paid_at`. */
  lemma DerivingInside(engine: Engine, b: Books, e: Event)
    requires Derived(b) && Post(engine, b, e).Ok?
    ensures var after := Post(engine, b, e).value;
            var rows := after.(paidAt := b.paidAt);
            Extends(b, rows) && Merge(b, b, rows) == rows
            && (Derives(b, e, rows) ==> Rederive(rows, EventAt(e)).paidAt == after.paidAt)
            && (!Derives(b, e, rows) ==> after.paidAt == b.paidAt)
  {
    hide CompensatingLines, AdjustmentLine, UnreversedSum, TotalMinor, SubtotalMinor, Pending, LastKind, Reserved,
         Recorded, RefuseUnlessChargeable;
    EventsAppend(engine, b, e);
    EventsFollow(engine, b, e);
    MergeOntoTheSame(b, Post(engine, b, e).value.(paidAt := b.paidAt));
  }

  lemma StepsStaySerial(engine: Engine, issued: Books, w: Store, step: Step)
    requires Derived(issued) && Serial(engine, issued, w)
    ensures Serial(engine, issued, Do(engine, w, step))
  {
    hide Post, Rederive, Merge, Extends, Derives;
    PaidAtOverARun(engine, issued, w.history);
    match step {
      case Derive(s) =>
        if s in w.sessions && w.sessions[s].HasWritten? {
          DerivingInside(engine, w.committed, w.sessions[s].event);
        }
      case Commit(s) =>
        if s in w.sessions && w.sessions[s].HasDerived? && Extends(w.sessions[s].seen, w.sessions[s].rows) {
          MergeOntoTheSame(w.committed, w.sessions[s].rows);
          var e := w.sessions[s].event;
          assert (w.history + [e])[..|w.history|] == w.history;
        }
      case _ =>
    }
  }

  /** Any interleaving of lock, read, write, derive and commit, with anything raised anywhere, commits exactly
      what the committed events would have done one after the other. */
  lemma {:induction false} InterleavingIsSerial(engine: Engine, issued: Books, steps: seq<Step>)
    requires Derived(issued)
    ensures Serial(engine, issued, Interleaved(engine, Opened(issued), steps))
  {
    if steps != [] {
      InterleavingIsSerial(engine, issued, steps[..|steps| - 1]);
      StepsStaySerial(engine, issued, Interleaved(engine, Opened(issued), steps[..|steps| - 1]), steps[|steps| - 1]);
    }
  }

  /** So at every commit `paid_at` is set iff the unreversed payments reach the total, and it is the instant of
      the committed event that last made that true; and nothing raised leaves the lock held. */
  lemma PaidAtAtEveryCommit(engine: Engine, issued: Books, steps: seq<Step>)
    requires Derived(issued)
    ensures var w := Interleaved(engine, Opened(issued), steps);
            (w.committed.paidAt.Some? <==> IsCovered(w.committed))
            && w.committed.paidAt == LastCovered(engine, issued, w.history)
            && w.committed.dueAt == issued.dueAt
            && (forall s :: Do(engine, w, Raise(s)).committed == w.committed
                            && Do(engine, w, Raise(s)).holder != Some(s))
  {
    InterleavingIsSerial(engine, issued, steps);
    PaidAtOverARun(engine, issued, Interleaved(engine, Opened(issued), steps).history);
  }

  /** And something does get done: whenever nobody holds the lock a session that enters, reads, writes, derives and
      commits has committed its event, or nothing at all where the event is refused, and has let go. */
  lemma ASessionAlone(engine: Engine, issued: Books, w: Store, s: SessionId, e: Event)
    requires Derived(issued) && Serial(engine, issued, w) && w.holder == None
    ensures var read := Do(engine, Do(engine, w, Enter(s, e)), Read(s));
            var done := Do(engine, Do(engine, Do(engine, read, Write(s)), Derive(s)), Commit(s));
            done.holder == None && done.sessions == w.sessions == map[]
            && done.committed == After(engine, w.committed, e)
            && done.history == (if Post(engine, w.committed, e).Ok? then w.history + [e] else w.history)
  {
    hide Post, Rederive, Merge, Extends, Derives, Run;
    PaidAtOverARun(engine, issued, w.history);
    assert w.sessions == map[];
    var entered := Do(engine, w, Enter(s, e));
    assert entered == w.(holder := Some(s), sessions := map[s := Locked(e)]);
    var read := Do(engine, entered, Read(s));
    assert read == w.(holder := Some(s), sessions := map[s := HasRead(e, w.committed)]);
    var written := Do(engine, read, Write(s));
    if Post(engine, w.committed, e).Ok? {
      var after := Post(engine, w.committed, e).value;
      var rows := after.(paidAt := w.committed.paidAt);
      assert written == w.(holder := Some(s), sessions := map[s := HasWritten(e, w.committed, rows)]);
      DerivingInside(engine, w.committed, e);
      var derived := Do(engine, written, Derive(s));
      assert derived == w.(holder := Some(s), sessions := map[s := HasDerived(e, w.committed, after)]);
      EventsAppend(engine, w.committed, e);
      MergeOntoTheSame(w.committed, after);
      assert map[s := HasDerived(e, w.committed, after)] - {s} == map[];
    } else {
      assert map[s := HasRead(e, w.committed)] - {s} == map[];
    }
  }

  // ---------------------------------------------------------------- and what is lost without it

  /** Two events that each read the same books before either committed. */
  function Collided(engine: Engine, b: Books, e: Event, f: Event): Books {
    if Post(engine, b, e).Ok? && Post(engine, b, f).Ok? then
      EventsAppend(engine, b, e);
      EventsAppend(engine, b, f);
      Merge(Merge(b, b, Post(engine, b, e).value), b, Post(engine, b, f).value)
    else b
  }

  /** Without the lock a payment and a credit at once leave `paid_at` unset on a paid invoice, where either
      order under the lock sets it. */
  lemma TheLockIsNeeded(engine: Engine)
    ensures var b := Books([Line(FullPeriod, 100, None, None, 0, 0, None, None, None)],
                           [Payment(Cheque, 50, 1, None)], map[], [], [], None, 0, None);
            var e, f := Received(Cheque, 30, 2), Excepted(OwnerException(Credit, 20, 3));
            Derived(b)
            && IsCovered(Collided(engine, b, e, f)) && Collided(engine, b, e, f).paidAt.None?
            && After(engine, After(engine, b, e), f).paidAt == Some(3)
            && After(engine, After(engine, b, f), e).paidAt == Some(2)
  {
    var line, p, q := Line(FullPeriod, 100, None, None, 0, 0, None, None, None), Payment(Cheque, 50, 1, None),
                      Payment(Cheque, 30, 2, None);
    var b := Books([line], [p], map[], [], [], None, 0, None);
    var e, f := Received(Cheque, 30, 2), Excepted(OwnerException(Credit, 20, 3));
    var credit := AdjustmentLine(b.lines, 20, 0);
    SumsOverOne(line, Everything);
    SumsOverOne(line, NonTax);
    SumsOverOne(credit, Everything);
    SumsOverConcatenation([line], [credit], Everything);
    OnePayment(p);
    TwoPayments(p, q);
    var paid, credited := After(engine, b, e), After(engine, b, f);
    assert paid == b.(payments := [p] + [q]);
    assert credited == b.(lines := [line] + [credit], exceptions := [f.exception]);
    MergeOntoTheSame(b, paid);
    assert ([p] + [q]) + [] == [p] + [q];
    assert [line] + ([line] + [credit])[1..] == [line] + [credit];
    assert Collided(engine, b, e, f) == Merge(paid, b, credited);
    assert Collided(engine, b, e, f).reversals == map[];
    assert Collided(engine, b, e, f).payments == [p] + [q];
    assert Collided(engine, b, e, f).lines == [line] + [credit];
  }

  lemma OnePayment(p: Payment)
    ensures UnreversedSum([p], map[]) == p.amount
  {
    assert [p][..0] == [];
  }

  lemma TwoPayments(p: Payment, q: Payment)
    ensures UnreversedSum([p] + [q], map[]) == p.amount + q.amount
    ensures [p] + [q] == [p, q]
  {
    OnePayment(p);
    assert ([p] + [q])[..1] == [p];
  }
}
