/** Tax on an invoice: `tax.py`, around an engine that is only a function. */
module Taxes {
  import opened Calendar
  import opened Lines
  import opened Options

  /** A garage's set as the engine read it: its rules in sequence, each under its own id. */
  datatype TaxSet = TaxSet(rules: seq<RuleId>)

  /** The engine: the figure it answers for each rule of a set on a base. A rule it leaves out owes nothing. */
  type Engine = (TaxSet, int) -> map<RuleId, int>

  /** All that is assumed of the engine: it answers for rules of the set, no figure is negative, and a base
      of zero is taxed at zero. */
  ghost predicate EngineLaws(engine: Engine) {
    forall s: TaxSet, base: int, r: RuleId :: r in engine(s, base) ==>
      r in s.rules && (base >= 0 ==> engine(s, base)[r] >= 0) && (base == 0 ==> engine(s, base)[r] == 0)
  }

  predicate RulesApart(s: TaxSet) {
    forall i, j :: 0 <= i < j < |s.rules| ==> s.rules[i] != s.rules[j]
  }

  function Owed(engine: Engine, s: TaxSet, base: int, r: RuleId): int {
    var answered := engine(s, base);
    if r in answered then answered[r] else 0
  }

  datatype TaxError = AlreadyTaxed | NoTaxSetInForce

  predicate IsTaxed(lines: seq<Line>) {
    exists i :: 0 <= i < |lines| && lines[i].kind.Tax?
  }

  /** The days the priced lines cover: first start, last end. */
  function Span(lines: seq<Line>): Option<(Day, Day)> {
    if lines == [] then None
    else
      var rest, last := Span(lines[..|lines| - 1]), lines[|lines| - 1];
      if last.kind.Tax? then rest
      else match rest
        case None => Some((last.startDay, last.endDay))
        case Some((start, end)) => Some((if last.startDay < start then last.startDay else start,
                                         if last.endDay > end then last.endDay else end))
  }

  function TaxLine(rule: RuleId, amount: int, span: Option<(Day, Day)>, exception: Option<ExceptionId>): Line {
    var (start, end) := if span.Some? then span.value else (0, 0);
    Line(Tax, amount, None, None, start, end, None, exception, Some(rule))
  }

  /** The engine's lines for the rules it answered, in the set's order. */
  function AnsweredLines(engine: Engine, s: TaxSet, base: int, rules: seq<RuleId>,
                         span: Option<(Day, Day)>): seq<Line>
  {
    if rules == [] then []
    else
      var last := rules[|rules| - 1];
      AnsweredLines(engine, s, base, rules[..|rules| - 1], span)
      + (if last in engine(s, base) then [TaxLine(last, engine(s, base)[last], span, None)] else [])
  }

  /** `tax_an_invoice`: `chosen` is the set the engine selects at the invoice's due instant, if any is in force. */
  function TaxAnInvoice(engine: Engine, lines: seq<Line>, chosen: Option<TaxSet>): Result<seq<Line>, TaxError> {
    if IsTaxed(lines) then Refused(AlreadyTaxed)
    else if chosen.None? then Refused(NoTaxSetInForce)
    else Ok(lines + AnsweredLines(engine, chosen.value, SubtotalMinor(lines), chosen.value.rules, Span(lines)))
  }

  /** `retax_after_adjustment`: for each rule of the recorded set, the line that moves what its lines carry to
      what the engine now says -- at zero where the figure did not move. */
  method RetaxAfterAdjustment(engine: Engine, lines: seq<Line>, recorded: TaxSet, exception: ExceptionId)
    returns (compensating: seq<Line>)
    ensures compensating == CompensatingLines(engine, lines, recorded, recorded.rules, exception)
  {
    compensating := [];
    for i := 0 to |recorded.rules|
      invariant compensating == CompensatingLines(engine, lines, recorded, recorded.rules[..i], exception)
    {
      var rule := recorded.rules[i];
      var answered := engine(recorded, SubtotalMinor(lines));
      var nowOwed := if rule in answered then answered[rule] else 0;
      var carried := Amount(lines, OfRule(rule));
      compensating := compensating + [TaxLine(rule, nowOwed - carried, Span(lines), Some(exception))];
      assert recorded.rules[..i + 1][..i] == recorded.rules[..i];
    }
    assert recorded.rules[..|recorded.rules|] == recorded.rules;
  }

  function CompensatingLine(engine: Engine, lines: seq<Line>, s: TaxSet, r: RuleId, exception: ExceptionId): Line {
    TaxLine(r, Owed(engine, s, SubtotalMinor(lines), r) - Amount(lines, OfRule(r)), Span(lines), Some(exception))
  }

  function CompensatingLines(engine: Engine, lines: seq<Line>, s: TaxSet, rules: seq<RuleId>,
                             exception: ExceptionId): seq<Line>
  {
    if rules == [] then []
    else CompensatingLines(engine, lines, s, rules[..|rules| - 1], exception)
         + [CompensatingLine(engine, lines, s, rules[|rules| - 1], exception)]
  }

  /** The span is of the priced lines, from the first day any of them starts to the last day any of them ends. */
  lemma {:induction false} SpanIs(lines: seq<Line>)
    ensures Span(lines).None? <==> forall l :: l in lines ==> l.kind == Tax
    ensures Span(lines).Some? ==>
              (exists l :: l in lines && l.kind != Tax && l.startDay == Span(lines).value.0)
              && (exists l :: l in lines && l.kind != Tax && l.endDay == Span(lines).value.1)
    ensures Span(lines).Some? ==>
              forall l :: l in lines && l.kind != Tax ==>
                            Span(lines).value.0 <= l.startDay && l.endDay <= Span(lines).value.1
  {
    if lines != [] {
      var front, last := lines[..|lines| - 1], lines[|lines| - 1];
      SpanIs(front);
      assert lines == front + [last];
      assert last in lines;
    }
  }

  /** The days of a span, as a tax line has them. */
  predicate HasDays(l: Line, span: Option<(Day, Day)>) {
    match span
    case None => l.startDay == 0 && l.endDay == 0
    case Some((start, end)) => l.startDay == start && l.endDay == end
  }

  /** What tax lines carry besides their figures: the span, no agreement, and of compensating lines the exception
      they compensate for. */
  lemma {:induction false} TaxLinesCarry(engine: Engine, lines: seq<Line>, s: TaxSet, rules: seq<RuleId>,
                                         e: ExceptionId, l: Line)
    ensures l in AnsweredLines(engine, s, SubtotalMinor(lines), rules, Span(lines)) ==>
              l.kind == Tax && HasDays(l, Span(lines)) && l.agreement == None && l.exception == None
              && l.rule.Some? && l.rule.value in engine(s, SubtotalMinor(lines))
              && l.amount == engine(s, SubtotalMinor(lines))[l.rule.value]
    ensures l in CompensatingLines(engine, lines, s, rules, e) ==>
              l.kind == Tax && HasDays(l, Span(lines)) && l.agreement == None && l.exception == Some(e)
  {
    if rules != [] {
      TaxLinesCarry(engine, lines, s, rules[..|rules| - 1], e, l);
    }
  }

  // ---------------------------------------------------------------- what the lines then say

  /** The tax on an invoice is the engine's: every tax line is of a recorded rule, and each rule's lines come
      to the engine's figure on the current non-tax total. */
  ghost predicate TaxedByTheEngine(engine: Engine, lines: seq<Line>, s: TaxSet) {
    (forall i :: 0 <= i < |lines| && lines[i].kind.Tax? ==> lines[i].rule.Some? && lines[i].rule.value in s.rules)
    && (forall r :: r in s.rules ==> Amount(lines, OfRule(r)) == Owed(engine, s, SubtotalMinor(lines), r))
  }

  lemma {:induction false} AnsweredLinesSum(engine: Engine, s: TaxSet, base: int, rules: seq<RuleId>,
                                            span: Option<(Day, Day)>, r: RuleId)
    requires forall i, j :: 0 <= i < j < |rules| ==> rules[i] != rules[j]
    ensures var tax := AnsweredLines(engine, s, base, rules, span);
            Amount(tax, OfRule(r)) == (if r in rules then Owed(engine, s, base, r) else 0)
            && Count(tax, OfRule(r)) == (if r in rules && r in engine(s, base) then 1 else 0)
            && Amount(tax, NonTax) == 0
            && forall i :: 0 <= i < |tax| ==> tax[i].kind.Tax? && tax[i].rule.Some? && tax[i].rule.value in rules
  {
    if rules != [] {
      var front, last := rules[..|rules| - 1], rules[|rules| - 1];
      AnsweredLinesSum(engine, s, base, front, span, r);
      assert rules == front + [last];
      var before := AnsweredLines(engine, s, base, front, span);
      assert before + [] == before;
      if last in engine(s, base) {
        var line := TaxLine(last, engine(s, base)[last], span, None);
        SumsOverOne(line, OfRule(r));
        SumsOverOne(line, NonTax);
        SumsOverConcatenation(before, [line], OfRule(r));
        SumsOverConcatenation(before, [line], NonTax);
      }
    }
  }

  lemma {:induction false} CompensatingSum(engine: Engine, lines: seq<Line>, s: TaxSet, rules: seq<RuleId>,
                                           e: ExceptionId, r: RuleId)
    requires forall i, j :: 0 <= i < j < |rules| ==> rules[i] != rules[j]
    ensures var tax := CompensatingLines(engine, lines, s, rules, e);
            Amount(tax, OfRule(r))
              == (if r in rules then Owed(engine, s, SubtotalMinor(lines), r) - Amount(lines, OfRule(r)) else 0)
            && Count(tax, OfRule(r)) == (if r in rules then 1 else 0)
            && Amount(tax, NonTax) == 0
            && forall i :: 0 <= i < |tax| ==> tax[i].kind.Tax? && tax[i].rule.Some? && tax[i].rule.value in rules
  {
    if rules != [] {
      var front, last := rules[..|rules| - 1], rules[|rules| - 1];
      CompensatingSum(engine, lines, s, front, e, r);
      assert rules == front + [last];
      var before, line := CompensatingLines(engine, lines, s, front, e), CompensatingLine(engine, lines, s, last, e);
      SumsOverOne(line, OfRule(r));
      SumsOverOne(line, NonTax);
      SumsOverConcatenation(before, [line], OfRule(r));
      SumsOverConcatenation(before, [line], NonTax);
    }
  }

  lemma {:induction false} UntaxedCarriesNoTax(lines: seq<Line>, r: RuleId)
    requires !IsTaxed(lines)
    ensures Amount(lines, OfRule(r)) == 0 && Count(lines, OfRule(r)) == 0
  {
    if lines != [] {
      var front := lines[..|lines| - 1];
      assert !lines[|lines| - 1].kind.Tax?;
      assert !IsTaxed(front) by {
        forall i | 0 <= i < |front| ensures !front[i].kind.Tax? {
          assert !lines[i].kind.Tax?;
        }
      }
      UntaxedCarriesNoTax(front, r);
    }
  }

  /** When an invoice is not taxed: it is already, or no set is in force. */
  lemma TaxIsRefused(engine: Engine, lines: seq<Line>, chosen: Option<TaxSet>)
    ensures TaxAnInvoice(engine, lines, chosen) == Refused(AlreadyTaxed) <==> exists l :: l in lines && l.kind == Tax
    ensures TaxAnInvoice(engine, lines, chosen) == Refused(NoTaxSetInForce)
            <==> chosen == None && forall l :: l in lines ==> l.kind != Tax
  {}

  /** Taxing at issue leaves the priced lines as they were and the tax as the engine says. */
  lemma IssueIsTaxedByTheEngine(engine: Engine, lines: seq<Line>, s: TaxSet)
    requires !IsTaxed(lines) && RulesApart(s)
    ensures var taxed := TaxAnInvoice(engine, lines, Some(s));
            taxed.Ok? && lines <= taxed.value
            && TaxedByTheEngine(engine, taxed.value, s) && SubtotalMinor(taxed.value) == SubtotalMinor(lines)
            && forall r :: r in s.rules ==>
                 var figures := engine(s, SubtotalMinor(lines));
                 Amount(taxed.value, OfRule(r)) == (if r in figures then figures[r] else 0)
                 && Count(taxed.value, OfRule(r)) == (if r in figures then 1 else 0)
  {
    var tax := AnsweredLines(engine, s, SubtotalMinor(lines), s.rules, Span(lines));
    var figures := engine(s, SubtotalMinor(lines));
    SumsOverConcatenation(lines, tax, NonTax);
    AnsweredLinesSum(engine, s, SubtotalMinor(lines), s.rules, Span(lines), 0);
    forall r | r in s.rules
      ensures Amount(lines + tax, OfRule(r)) == Owed(engine, s, SubtotalMinor(lines), r)
      ensures Count(lines + tax, OfRule(r)) == (if r in figures then 1 else 0)
    {
      AnsweredLinesSum(engine, s, SubtotalMinor(lines), s.rules, Span(lines), r);
      UntaxedCarriesNoTax(lines, r);
      SumsOverConcatenation(lines, tax, OfRule(r));
    }
  }

  /** Whatever the lines carried before, the compensating lines bring every rule to the engine's figure. */
  lemma RetaxingRestoresTheTax(engine: Engine, lines: seq<Line>, s: TaxSet, e: ExceptionId)
    requires RulesApart(s)
    requires forall i :: 0 <= i < |lines| && lines[i].kind.Tax? ==>
                           lines[i].rule.Some? && lines[i].rule.value in s.rules
    ensures var all := lines + CompensatingLines(engine, lines, s, s.rules, e);
            TaxedByTheEngine(engine, all, s) && SubtotalMinor(all) == SubtotalMinor(lines)
            && forall r :: r in s.rules ==>
                 var figures := engine(s, SubtotalMinor(lines));
                 Amount(all, OfRule(r)) == (if r in figures then figures[r] else 0)
                 && Count(all, OfRule(r)) == Count(lines, OfRule(r)) + 1
  {
    var tax := CompensatingLines(engine, lines, s, s.rules, e);
    CompensatingSum(engine, lines, s, s.rules, e, 0);
    SumsOverConcatenation(lines, tax, NonTax);
    forall r | r in s.rules
      ensures Amount(lines + tax, OfRule(r)) == Owed(engine, s, SubtotalMinor(lines), r)
      ensures Count(lines + tax, OfRule(r)) == Count(lines, OfRule(r)) + 1
    {
      CompensatingSum(engine, lines, s, s.rules, e, r);
      SumsOverConcatenation(lines, tax, OfRule(r));
    }
  }

  function SumOfRules(lines: seq<Line>, rules: seq<RuleId>): int {
    if rules == [] then 0
    else SumOfRules(lines, rules[..|rules| - 1]) + Amount(lines, OfRule(rules[|rules| - 1]))
  }

  lemma {:induction false} OneLineOverRules(lines: seq<Line>, l: Line, rules: seq<RuleId>)
    requires forall i, j :: 0 <= i < j < |rules| ==> rules[i] != rules[j]
    ensures SumOfRules(lines + [l], rules)
            == SumOfRules(lines, rules) + (if l.kind.Tax? && l.rule.Some? && l.rule.value in rules then l.amount else 0)
  {
    if rules != [] {
      var front, last := rules[..|rules| - 1], rules[|rules| - 1];
      OneLineOverRules(lines, l, front);
      SumsOverOne(l, OfRule(last));
      SumsOverConcatenation(lines, [l], OfRule(last));
      assert rules == front + [last];
    }
  }

  lemma {:induction false} NoLinesNoTax(rules: seq<RuleId>)
    ensures SumOfRules([], rules) == 0
  {
    if rules != [] {
      NoLinesNoTax(rules[..|rules| - 1]);
    }
  }

  /** The total is the non-tax total and, rule by rule, the tax. */
  lemma {:induction false} TotalIsSubtotalAndTax(lines: seq<Line>, rules: seq<RuleId>)
    requires forall i, j :: 0 <= i < j < |rules| ==> rules[i] != rules[j]
    requires forall i :: 0 <= i < |lines| && lines[i].kind.Tax? ==> lines[i].rule.Some? && lines[i].rule.value in rules
    ensures TotalMinor(lines) == SubtotalMinor(lines) + SumOfRules(lines, rules)
  {
    if lines == [] {
      NoLinesNoTax(rules);
    } else {
      var front, last := lines[..|lines| - 1], lines[|lines| - 1];
      TotalIsSubtotalAndTax(front, rules);
      OneLineOverRules(front, last, rules);
      assert lines == front + [last];
    }
  }

  lemma {:induction false} RulesOweNothingNegative(engine: Engine, lines: seq<Line>, s: TaxSet, rules: seq<RuleId>)
    requires EngineLaws(engine) && SubtotalMinor(lines) >= 0
    requires forall r :: r in rules ==> Amount(lines, OfRule(r)) == Owed(engine, s, SubtotalMinor(lines), r)
    ensures SumOfRules(lines, rules) >= 0
    ensures SubtotalMinor(lines) == 0 ==> SumOfRules(lines, rules) == 0
  {
    if rules != [] {
      var last := rules[|rules| - 1];
      assert last in rules;
      RulesOweNothingNegative(engine, lines, s, rules[..|rules| - 1]);
      assert Owed(engine, s, SubtotalMinor(lines), last) >= 0;
    }
  }

  /** A total is never negative while the non-tax total is not, and is zero when that is zero: a waiver of
      everything leaves nothing, its tax included. */
  lemma TotalFollowsTheBase(engine: Engine, lines: seq<Line>, s: TaxSet)
    requires EngineLaws(engine) && RulesApart(s) && TaxedByTheEngine(engine, lines, s) && SubtotalMinor(lines) >= 0
    ensures TotalMinor(lines) >= SubtotalMinor(lines)
    ensures SubtotalMinor(lines) == 0 ==> TotalMinor(lines) == 0
  {
    TotalIsSubtotalAndTax(lines, s.rules);
    RulesOweNothingNegative(engine, lines, s, s.rules);
  }
}
