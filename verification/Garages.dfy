/** The garage record of `garage.py`: its billing day, its clock and its identity rule. */
module Garages {
  import opened Calendar
  import opened Options

  type GarageId = int
  type Instant = int

  datatype BillingDay = FirstOfMonth | LastOfMonth | NthOfMonth(n: int)

  datatype IdentityRule = Exact | FoldedAlphanumeric

  /** A local wall-clock reading: the calendar day, and the time of that day in the clock's finest unit. */
  datatype LocalTime = LocalTime(day: Day, time: int)

  /** A zone is its two translations. `ZoneLaws` is what the module relies on. */
  datatype Zone = Zone(local: Instant -> LocalTime, dayStart: Day -> Instant) {
    function DayOf(at: Instant): Day {
      local(at).day
    }
  }

  ghost predicate ZoneLaws(z: Zone) {
    (forall d: Day :: z.DayOf(z.dayStart(d)) == d)
    && (forall d: Day, e: Day :: d < e ==> z.dayStart(d) < z.dayStart(e))
  }

  datatype Garage = Garage(
    id: GarageId, zone: Zone, currency: int, billingDay: BillingDay, graceDays: int, rule: IdentityRule)

  /** What the constructor enforces: no nth day above 28, no negative grace. */
  predicate WellFormed(g: Garage) {
    g.graceDays >= 0 && (g.billingDay.NthOfMonth? ==> 1 <= g.billingDay.n <= 28)
  }

  // ---------------------------------------------------------------- the billing day

  function BillingDayIn(g: Garage, year: int, month: int): (d: Date)
    requires WellFormed(g) && 1 <= month <= 12
    ensures IsDate(d) && MonthIndex(d) == year * 12 + (month - 1)
  {
    match g.billingDay
    case FirstOfMonth => Date(year, month, 1)
    case LastOfMonth => LastDayOfMonth(year, month)
    case NthOfMonth(n) => Date(year, month, n)
  }

  function NextBillingDayOnOrAfter(g: Garage, day: Date): (d: Date)
    requires WellFormed(g) && IsDate(day)
    ensures IsDate(d)
  {
    var candidate := BillingDayIn(g, day.year, day.month);
    if !Before(candidate, day) then candidate
    else
      var following := AddMonths(Date(day.year, day.month, 1), 1, false);
      BillingDayIn(g, following.year, following.month)
  }

  /** The billing day of month `k`, as an ordinal. */
  function BillingOrdinal(g: Garage, k: int): Day
    requires WellFormed(g)
  {
    Ordinal(BillingDayIn(g, k / 12, k % 12 + 1))
  }

  lemma BillingOrdinalInMonth(g: Garage, k: int)
    requires WellFormed(g)
    ensures MonthStart(k) <= BillingOrdinal(g, k) < MonthStart(k + 1)
    ensures g.billingDay.LastOfMonth? ==> BillingOrdinal(g, k) == MonthStart(k + 1) - 1
    ensures g.billingDay.FirstOfMonth? ==> BillingOrdinal(g, k) == MonthStart(k)
    ensures g.billingDay.NthOfMonth? ==> BillingOrdinal(g, k) == MonthStart(k) + g.billingDay.n - 1
  {
    MonthsAbut(k);
    MonthIndexOf(BillingDayIn(g, k / 12, k % 12 + 1));
  }

  /** Consecutive billing days are 28 to 31 days apart under every option. */
  lemma BillingDaysSpread(g: Garage, k: int)
    requires WellFormed(g)
    ensures 28 <= BillingOrdinal(g, k + 1) - BillingOrdinal(g, k) <= 31
    ensures g.billingDay.LastOfMonth? ==> BillingOrdinal(g, k + 1) - BillingOrdinal(g, k) == MonthLength(k + 1)
    ensures !g.billingDay.LastOfMonth? ==> BillingOrdinal(g, k + 1) - BillingOrdinal(g, k) == MonthLength(k)
  {
    BillingOrdinalInMonth(g, k);
    BillingOrdinalInMonth(g, k + 1);
    MonthsAbut(k);
    MonthsAbut(k + 1);
  }

  lemma {:induction false} BillingDaysAscend(g: Garage, j: int, k: int)
    requires WellFormed(g) && j < k
    ensures BillingOrdinal(g, j) < BillingOrdinal(g, k)
    decreases k - j
  {
    BillingDaysSpread(g, j);
    if j + 1 < k {
      BillingDaysAscend(g, j + 1, k);
    }
  }

  lemma MonthAfter(d: Date, step: int)
    requires IsDate(d)
    ensures var e := AddMonths(Date(d.year, d.month, 1), step, false);
            e.year == (MonthIndex(d) + step) / 12 && e.month == (MonthIndex(d) + step) % 12 + 1
  {}

  lemma DayWithinItsMonth(day: Date)
    requires IsDate(day)
    ensures MonthStart(MonthIndex(day)) <= Ordinal(day) < MonthStart(MonthIndex(day) + 1)
  {
    MonthIndexOf(day);
    MonthsAbut(MonthIndex(day));
  }

  /** The month whose billing day is the first on or after `day`. */
  function FirstBillingMonth(g: Garage, day: Date): int
    requires WellFormed(g) && IsDate(day)
  {
    var m := MonthIndex(day);
    if BillingOrdinal(g, m) >= Ordinal(day) then m else m + 1
  }

  lemma NextBillingDayIs(g: Garage, day: Date)
    requires WellFormed(g) && IsDate(day)
    ensures var k := FirstBillingMonth(g, day);
            NextBillingDayOnOrAfter(g, day) == BillingDayIn(g, k / 12, k % 12 + 1)
  {
    hide MonthIndex, BillingDayIn, Ordinal, AddMonths;
    MonthIndexOf(day);
    OrdinalOrder(BillingDayIn(g, day.year, day.month), day);
    MonthAfter(day, 1);
  }

  /** The first billing day on or after `day`: it is not before `day`, and none lies between. */
  lemma NextBillingDayIsFirst(g: Garage, day: Date)
    requires WellFormed(g) && IsDate(day)
    ensures var k := FirstBillingMonth(g, day);
            NextBillingDayOnOrAfter(g, day) == BillingDayIn(g, k / 12, k % 12 + 1)
            && BillingOrdinal(g, k - 1) < Ordinal(day) <= BillingOrdinal(g, k)
  {
    hide MonthIndex, BillingDayIn, BillingOrdinal, NextBillingDayOnOrAfter, Ordinal;
    NextBillingDayIs(g, day);
    BillingDaysAround(g, day);
  }

  lemma BillingDaysAround(g: Garage, day: Date)
    requires WellFormed(g) && IsDate(day)
    ensures BillingOrdinal(g, MonthIndex(day) - 1) < Ordinal(day) <= BillingOrdinal(g, MonthIndex(day) + 1)
  {
    DayWithinItsMonth(day);
    BillingOrdinalInMonth(g, MonthIndex(day) - 1);
    BillingOrdinalInMonth(g, MonthIndex(day) + 1);
  }

  // ---------------------------------------------------------------- vehicle identities

  /** Upper case to lower case, over ASCII. */
  function Lower(c: char): char {
    if 'A' <= c <= 'Z' then (c as int + 32) as char else c
  }

  predicate IsAlphanumeric(c: char) {
    'a' <= c <= 'z' || 'A' <= c <= 'Z' || '0' <= c <= '9'
  }

  /** O and I, which no camera reads as letters, become the digits they look like; the text is in lower case by now. */
  function ReaderFold(c: char): char {
    if c == 'o' then '0' else if c == 'i' then '1' else c
  }

  predicate IsSpace(c: char) {
    c == ' ' || ('\t' <= c <= '\r') || (28 as char <= c <= 31 as char)
  }

  predicate IsBlank(s: string) {
    forall i :: 0 <= i < |s| ==> IsSpace(s[i])
  }

  function Fold(s: string): string {
    if s == "" then ""
    else if IsAlphanumeric(Lower(s[0])) then [ReaderFold(Lower(s[0]))] + Fold(s[1..])
    else Fold(s[1..])
  }

  /** `normalise_identity`: None where the source raises because nothing is left to compare. */
  function Normalise(rule: IdentityRule, identity: string): Option<string> {
    var normalised := if rule.Exact? then identity else Fold(identity);
    if IsBlank(normalised) then None else Some(normalised)
  }

  /** `identities_match`: None where either side normalises to nothing. */
  function IdentitiesMatch(rule: IdentityRule, written: string, presented: string): Option<bool> {
    match (Normalise(rule, written), Normalise(rule, presented))
    case (Some(w), Some(p)) => Some(w == p)
    case _ => None
  }

  /** A stored form is its own normal form. */
  predicate Canonical(rule: IdentityRule, form: string) {
    Normalise(rule, form) == Some(form)
  }

  predicate ReaderCharacter(c: char) {
    ('a' <= c <= 'z' || '0' <= c <= '9') && c != 'o' && c != 'i'
  }

  /** A folded text is spelt in the reader's alphabet: lower case, with no o and no i. */
  lemma {:induction false} FoldedAlphabet(s: string)
    ensures forall c :: c in Fold(s) ==> ReaderCharacter(c)
  {
    if s != "" {
      FoldedAlphabet(s[1..]);
    }
  }

  lemma {:induction false} FoldFixesTheAlphabet(s: string)
    requires forall c :: c in s ==> ReaderCharacter(c)
    ensures Fold(s) == s
  {
    if s != "" {
      assert s[0] in s;
      FoldFixesTheAlphabet(s[1..]);
    }
  }

  /** Normalising what was stored changes nothing, under either rule. */
  lemma NormaliseIsIdempotent(rule: IdentityRule, identity: string)
    ensures Normalise(rule, identity).Some? ==> Canonical(rule, Normalise(rule, identity).value)
  {
    FoldedAlphabet(identity);
    FoldFixesTheAlphabet(Fold(identity));
  }

  lemma {:induction false} FoldDropsSeparators(s: string, t: string, c: char)
    requires !IsAlphanumeric(c)
    ensures Fold(s + [c] + t) == Fold(s + t)
  {
    if s == "" {
      assert s + [c] + t == [c] + t && s + t == t;
      assert ([c] + t)[1..] == t;
    } else {
      assert (s + [c] + t)[1..] == s[1..] + [c] + t;
      assert (s + t)[1..] == s[1..] + t;
      FoldDropsSeparators(s[1..], t, c);
    }
  }

  lemma {:induction false} FoldIsCharacterwise(s: string, t: string)
    requires |s| == |t|
    requires forall i :: 0 <= i < |s| ==> Fold([s[i]]) == Fold([t[i]])
    ensures Fold(s) == Fold(t)
  {
    if s != "" {
      assert Fold([s[0]]) == Fold([t[0]]);
      forall i | 0 <= i < |s| - 1 ensures Fold([s[1..][i]]) == Fold([t[1..][i]]) {
        assert Fold([s[i + 1]]) == Fold([t[i + 1]]);
      }
      FoldIsCharacterwise(s[1..], t[1..]);
      FoldHead(s);
      FoldHead(t);
    }
  }

  lemma FoldHead(s: string)
    requires s != ""
    ensures Fold(s) == Fold([s[0]]) + Fold(s[1..])
  {
    hide IsAlphanumeric, Lower, ReaderFold;
    assert [s[0]][1..] == "";
  }

  /** What the fold makes of each character: digits stay, letters come out in lower case whatever their case, o and i
      as the digits they look like, and nothing else comes out at all. With `FoldHead` this is all of it. */
  lemma FoldOfOne(c: char)
    ensures '0' <= c <= '9' ==> Fold([c]) == [c]
    ensures 'a' <= c <= 'z' ==> Fold([c]) == [if c == 'o' then '0' else if c == 'i' then '1' else c]
    ensures 'A' <= c <= 'Z' ==> Fold([c]) == Fold([(c as int - 'A' as int + 'a' as int) as char])
    ensures !('0' <= c <= '9') && !('a' <= c <= 'z') && !('A' <= c <= 'Z') ==> Fold([c]) == ""
  {
    assert [c][1..] == "" && [Lower(c)][1..] == "" && Fold("") == "";
  }

  lemma {:induction false} FoldIsEmpty(s: string)
    ensures Fold(s) == "" <==> forall c :: c in s ==> !IsAlphanumeric(c)
  {
    hide IsAlphanumeric, Lower, ReaderFold;
    if s != "" {
      var head, tail := s[0], s[1..];
      assert s == [head] + tail;
      FoldHead(s);
      FoldOfOneIsEmpty(head);
      FoldIsEmpty(tail);
      if forall c :: c in s ==> !IsAlphanumeric(c) {
        assert head in s && forall c :: c in tail ==> c in s;
      }
      if Fold(s) == "" {
        assert Fold([head]) == "" && Fold(tail) == "";
      }
    }
  }

  lemma FoldOfOneIsEmpty(c: char)
    ensures Fold([c]) == "" <==> !IsAlphanumeric(c)
  {
    assert [c][1..] == "";
  }

  /** When an identity comes to nothing and what it comes to otherwise: under the exact rule it is blank or itself;
      under the folding rule it has no letter and no digit, or it is its fold. */
  lemma NormaliseIs(identity: string)
    ensures Normalise(Exact, identity)
            == if forall c :: c in identity ==> c in " \t\n\r" || 11 <= c as int <= 12 || 28 <= c as int <= 31
               then None else Some(identity)
    ensures Normalise(FoldedAlphanumeric, identity)
            == if exists c :: c in identity && ('0' <= c <= '9' || 'a' <= c <= 'z' || 'A' <= c <= 'Z')
               then Some(Fold(identity)) else None
  {
    hide Fold;
    forall c: char ensures IsSpace(c) <==> c in " \t\n\r" || 11 <= c as int <= 12 || 28 <= c as int <= 31 {
      Spaces(c);
    }
    FoldIsEmpty(identity);
    FoldedIsNotBlank(identity);
  }

  lemma Spaces(c: char)
    ensures IsSpace(c) <==> c in " \t\n\r" || 11 <= c as int <= 12 || 28 <= c as int <= 31
  {
    var white := " \t\n\r";
    assert white[0] == ' ' && white[1] == '\t' && white[2] == '\n' && white[3] == '\r';
  }

  lemma FoldedIsNotBlank(s: string)
    ensures IsBlank(Fold(s)) <==> Fold(s) == ""
  {
    FoldedAlphabet(s);
    if Fold(s) != "" {
      assert Fold(s)[0] in Fold(s);
    }
  }

  /** Two identities match where what each comes to is the same text, and cannot be compared where one of them comes
      to nothing. */
  lemma MatchesAre(rule: IdentityRule, written: string, presented: string)
    ensures IdentitiesMatch(rule, written, presented).None?
            <==> Normalise(rule, written).None? || Normalise(rule, presented).None?
    ensures IdentitiesMatch(rule, written, presented) == Some(true)
            <==> Normalise(rule, written).Some? && Normalise(rule, written) == Normalise(rule, presented)
  {}

  /** Plates that a camera cannot tell apart match under the folding rule, in either case, and not under the exact
      one. */
  lemma ReaderConfusionsMatch()
    ensures Fold("O") == Fold("o") == Fold("0") == "0"
    ensures Fold("I") == Fold("i") == Fold("1") == "1"
    ensures IdentitiesMatch(FoldedAlphanumeric, "GO4IT", "G041T") == Some(true)
    ensures IdentitiesMatch(Exact, "GO4IT", "G041T") == Some(false)
  {
    forall c: char ensures [c][1..] == "" {}
    assert "O" == ['O'] && "o" == ['o'] && "0" == ['0'] && "I" == ['I'] && "i" == ['i'] && "1" == ['1'] && "G" == ['G'];
    FoldIsCharacterwise("GO4IT", "G041T");
    FoldHead("GO4IT");
    assert Fold("GO4IT")[0] == 'g';
  }
}
