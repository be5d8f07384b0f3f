/** Invoice lines and the sums over them: the value half of `invoice.py`. */
module Lines {
  import opened Calendar
  import opened Agreements
  import opened Options

  type RuleId = int
  type ExceptionId = int

  datatype LineKind = PartialPeriod | FullPeriod | RecurringFee | OneTimeFee | ExceptionAdjustment | Tax

  /** `fee` is the fee a fee line is for; only a tax line has a `rule`. */
  datatype Line = Line(
    kind: LineKind, amount: int, agreement: Option<AgreementId>, version: Option<int>,
    startDay: Day, endDay: Day, fee: Option<int>, exception: Option<ExceptionId>, rule: Option<RuleId>)

  /** Which lines a sum or a count is over. */
  datatype Pick = Everything | NonTax | OfRule(rule: RuleId) | Monthly | OneTimeFor(fee: int) {
    predicate Takes(l: Line) {
      match this
      case Everything => true
      case NonTax => !l.kind.Tax?
      case OfRule(rule) => l.kind.Tax? && l.rule == Some(rule)
      case Monthly => l.kind.PartialPeriod? || l.kind.FullPeriod?
      case OneTimeFor(fee) => l.kind.OneTimeFee? && l.fee == Some(fee)
    }
  }

  function Amount(lines: seq<Line>, pick: Pick): int {
    if lines == [] then 0
    else Amount(lines[..|lines| - 1], pick) + (if pick.Takes(lines[|lines| - 1]) then lines[|lines| - 1].amount else 0)
  }

  function Count(lines: seq<Line>, pick: Pick): nat {
    if lines == [] then 0
    else Count(lines[..|lines| - 1], pick) + (if pick.Takes(lines[|lines| - 1]) then 1 else 0)
  }

  /** `Invoice.total_minor` and `Invoice.subtotal_minor`. */
  function TotalMinor(lines: seq<Line>): int {
    Amount(lines, Everything)
  }

  function SubtotalMinor(lines: seq<Line>): int {
    Amount(lines, NonTax)
  }

  lemma {:induction false} SumsOverConcatenation(a: seq<Line>, b: seq<Line>, pick: Pick)
    ensures Amount(a + b, pick) == Amount(a, pick) + Amount(b, pick)
    ensures Count(a + b, pick) == Count(a, pick) + Count(b, pick)
  {
    if b == [] {
      assert a + b == a;
    } else {
      SumsOverConcatenation(a, b[..|b| - 1], pick);
      assert (a + b)[..|a + b| - 1] == a + b[..|b| - 1];
    }
  }

  lemma SumsOverOne(l: Line, pick: Pick)
    ensures Amount([l], pick) == (if pick.Takes(l) then l.amount else 0)
    ensures Count([l], pick) == (if pick.Takes(l) then 1 else 0)
  {
    assert [l][..0] == [];
  }

  /** The total is of every line and the subtotal of every line but tax; a rule's tax is of its own tax lines. */
  lemma TotalsAreOfTheLines(lines: seq<Line>, l: Line)
    ensures TotalMinor([]) == 0 && SubtotalMinor([]) == 0
    ensures TotalMinor(lines + [l]) == TotalMinor(lines) + l.amount
    ensures SubtotalMinor(lines + [l]) == SubtotalMinor(lines) + (if l.kind == Tax then 0 else l.amount)
    ensures forall r :: Amount(lines + [l], OfRule(r))
                        == Amount(lines, OfRule(r)) + (if l.kind == Tax && l.rule == Some(r) then l.amount else 0)
  {
    assert (lines + [l])[..|lines|] == lines;
  }
}
