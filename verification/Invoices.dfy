/**
 Invoice numbers: one gapless series a financial year, one invoice an order.

 A number is taken from its series in a transaction of its own; the invoice row
 follows in another. `found` is whether the caller, looking first, found an
 invoice for the order; `cut` says that the second transaction never came.
 */
module Invoices {
  import opened Wrappers
  import opened Numerals
  import T = Tax

  datatype Number = Number(year: nat, serial: nat)

  datatype Invoice = Invoice(number: Number, amounts: T.Amounts)

  datatype Books = Books(last: map<nat, nat>, invoices: map<nat, Invoice>)

  datatype Step = Generate(order: nat, year: nat, amounts: T.Amounts, found: bool, cut: bool)

  // ----- the printed form -----

  /** The financial year a calendar month falls in, by the year it starts in. */
  function FinancialYear(year: nat, month: nat): nat
    requires year >= 1
  {
    if month >= 4 then year else year - 1
  }

  /** A financial year is the twelve months from April on. */
  lemma YearRunsFromApril(year: nat, month: nat, start: nat)
    requires year >= 1 && 1 <= month <= 12
    ensures FinancialYear(year, month) == start <==> 12 * start + 4 <= 12 * year + month < 12 * (start + 1) + 4
  {
  }

  function YearEnding(year: nat): (s: string)
    ensures '/' !in s
  {
    var next := Digits(year + 1);
    var ending := if |next| >= 2 then next[|next| - 2..] else next;
    assert forall c <- ending :: c in next;
    ending
  }

  function YearName(year: nat): (s: string)
    ensures '/' !in s
  {
    assert '/' !in Digits(year);
    Digits(year) + "-" + YearEnding(year)
  }

  function InvoiceNumber(prefix: string, n: Number): string {
    prefix + "/" + YearName(n.year) + "/" + ZeroPadded(n.serial, 6)
  }

  function PurchaseNumber(serial: nat): string {
    "PO-" + ZeroPadded(serial, 6)
  }

  lemma YearNameReadsBack(a: nat, b: nat)
    requires YearName(a) == YearName(b)
    ensures a == b
  {
    var ta, tb := YearName(a)[|Digits(a)| + 1..], YearName(b)[|Digits(b)| + 1..];
    assert YearName(a) == Digits(a) + ['-'] + ta && YearName(b) == Digits(b) + ['-'] + tb;
    SplitsOnce(Digits(a), ta, Digits(b), tb, '-');
    DigitsReadBack(a);
    DigitsReadBack(b);
  }

  lemma PartsReadBack(prefix: string, ya: string, sa: string, yb: string, sb: string)
    requires prefix + "/" + ya + "/" + sa == prefix + "/" + yb + "/" + sb
    requires '/' !in ya && '/' !in yb
    ensures ya == yb && sa == sb
  {
    var n := |prefix| + 1;
    assert (prefix + "/" + ya + "/" + sa)[n..] == ya + ['/'] + sa;
    assert (prefix + "/" + yb + "/" + sb)[n..] == yb + ['/'] + sb;
    SplitsOnce(ya, sa, yb, sb, '/');
  }

  /** Two invoices never print alike, for any year and any number of digits. */
  lemma InvoiceNumbersReadBack(prefix: string, a: Number, b: Number)
    requires InvoiceNumber(prefix, a) == InvoiceNumber(prefix, b)
    ensures a == b
  {
    PartsReadBack(prefix, YearName(a.year), ZeroPadded(a.serial, 6), YearName(b.year), ZeroPadded(b.serial, 6));
    YearNameReadsBack(a.year, b.year);
    PaddedReadsBack(a.serial, 6);
    PaddedReadsBack(b.serial, 6);
  }

  /** The prefix, the year the financial year starts in, the last two digits of the next, and six digits or more. */
  lemma InvoiceNumberShape(prefix: string, n: Number)
    requires n.year >= 9
    ensures var next, serial := YearEnding(n.year), ZeroPadded(n.serial, 6);
            && InvoiceNumber(prefix, n) == prefix + "/" + (Digits(n.year) + "-" + next) + "/" + serial
            && |next| == 2 && Read(next) == (n.year + 1) % 100
            && |serial| >= 6 && Read(serial) == n.serial && (|serial| > 6 && n.serial > 0 ==> serial[0] != '0')
  {
    LastTwo(n.year + 1);
    PaddedReadsBack(n.serial, 6);
    PaddedWidth(n.serial, 6);
  }

  lemma PurchaseNumbersReadBack(a: nat, b: nat)
    requires PurchaseNumber(a) == PurchaseNumber(b)
    ensures a == b && PurchaseNumber(a)[..3] == "PO-" && |PurchaseNumber(a)| >= 9
  {
    assert PurchaseNumber(a)[3..] == ZeroPadded(a, 6) && PurchaseNumber(b)[3..] == ZeroPadded(b, 6);
    PaddedReadsBack(a, 6);
    PaddedReadsBack(b, 6);
    PaddedWidth(a, 6);
  }

  // ----- issuing -----

  function Last(b: Books, year: nat): nat {
    if year in b.last then b.last[year] else 0
  }

  /** A caller that found no invoice takes a number; the row it then writes is refused if there is one by now. */
  function Do(b: Books, s: Step): Books {
    if s.found then b
    else
      var serial := Last(b, s.year) + 1;
      var taken := b.(last := b.last[s.year := serial]);
      if s.cut || s.order in b.invoices then taken
      else taken.(invoices := b.invoices[s.order := Invoice(Number(s.year, serial), s.amounts)])
  }

  function Run(b: Books, steps: seq<Step>): Books {
    if steps == [] then b else Do(Run(b, steps[..|steps| - 1]), steps[|steps| - 1])
  }

  predicate Holds(b: Books, order: nat, n: Number) {
    order in b.invoices && b.invoices[order].number == n
  }

  /** Numbers lie within their series and no two orders share one. */
  ghost predicate Valid(b: Books) {
    && (forall o <- b.invoices :: 1 <= b.invoices[o].number.serial <= Last(b, b.invoices[o].number.year))
    && forall o, p | o in b.invoices && p in b.invoices && o != p :: b.invoices[o].number != b.invoices[p].number
  }

  ghost predicate Issued(b: Books, n: Number) {
    exists o :: Holds(b, o, n)
  }

  /** Every number taken from a series is on some invoice. */
  ghost predicate Gapless(b: Books) {
    forall year: nat, k: nat | 1 <= k <= Last(b, year) :: Issued(b, Number(year, k))
  }

  /** A number taken and lost. */
  predicate Burns(b: Books, s: Step) {
    !s.found && (s.cut || s.order in b.invoices)
  }

  lemma StepKeepsInvoices(b: Books, s: Step)
    ensures forall o <- b.invoices :: o in Do(b, s).invoices && Do(b, s).invoices[o] == b.invoices[o]
    ensures forall o <- Do(b, s).invoices ::
              o in b.invoices
              || (o == s.order && !Burns(b, s) && Do(b, s).invoices[o].number == Number(s.year, Last(b, s.year) + 1))
    ensures forall year: nat :: Last(b, year) <= Last(Do(b, s), year)
  {
  }

  lemma StepKeeps(b: Books, s: Step)
    requires Valid(b)
    ensures Valid(Do(b, s))
    ensures forall o <- b.invoices :: o in Do(b, s).invoices && Do(b, s).invoices[o] == b.invoices[o]
    ensures forall n: Number | n.serial <= Last(b, n.year) :: Issued(Do(b, s), n) <==> Issued(b, n)
  {
    StepKeepsInvoices(b, s);
    forall n: Number | n.serial <= Last(b, n.year)
      ensures Issued(Do(b, s), n) <==> Issued(b, n)
    {
      forall o
        ensures Holds(Do(b, s), o, n) <==> Holds(b, o, n)
      {
      }
    }
  }

  /** The series stay gapless exactly when no number is lost. */
  lemma GaplessStep(b: Books, s: Step)
    requires Valid(b) && Gapless(b)
    ensures Gapless(Do(b, s)) <==> !Burns(b, s)
  {
    var b' := Do(b, s);
    StepKeeps(b, s);
    if !s.found {
      var n := Number(s.year, Last(b, s.year) + 1);
      assert forall year: nat, k: nat | 1 <= k <= Last(b', year) ::
          Number(year, k) == n || k <= Last(b, year);
      if Burns(b, s) {
        assert !Issued(b', n) by {
          assert forall o <- b.invoices :: b.invoices[o].number != n;
        }
        assert 1 <= n.serial <= Last(b', n.year);
      } else {
        assert Holds(b', s.order, n);
      }
    }
  }

  /** A lost number stays lost: no later call ever fills the gap. */
  lemma {:induction false} LostIsLost(b: Books, steps: seq<Step>, n: Number)
    requires Valid(b) && n.serial <= Last(b, n.year) && !Issued(b, n)
    ensures Valid(Run(b, steps)) && n.serial <= Last(Run(b, steps), n.year) && !Issued(Run(b, steps), n)
  {
    if steps != [] {
      LostIsLost(b, steps[..|steps| - 1], n);
      StepKeeps(Run(b, steps[..|steps| - 1]), steps[|steps| - 1]);
    }
  }

  const OPENING := Books(map[], map[])

  /** Over any run at all, orders keep the one invoice they got and no two print the same number. */
  lemma {:induction false} EveryRunNumbersOnce(steps: seq<Step>, prefix: string)
    ensures var b := Run(OPENING, steps);
            && Valid(b)
            && forall o, p | o in b.invoices && p in b.invoices && o != p ::
                 InvoiceNumber(prefix, b.invoices[o].number) != InvoiceNumber(prefix, b.invoices[p].number)
  {
    if steps != [] {
      EveryRunNumbersOnce(steps[..|steps| - 1], prefix);
      StepKeeps(Run(OPENING, steps[..|steps| - 1]), steps[|steps| - 1]);
    }
    var b := Run(OPENING, steps);
    forall o, p | o in b.invoices && p in b.invoices && o != p
      ensures InvoiceNumber(prefix, b.invoices[o].number) != InvoiceNumber(prefix, b.invoices[p].number)
    {
      if InvoiceNumber(prefix, b.invoices[o].number) == InvoiceNumber(prefix, b.invoices[p].number) {
        InvoiceNumbersReadBack(prefix, b.invoices[o].number, b.invoices[p].number);
      }
    }
  }

  /** Every call of the run ends in an invoice: it found one, or saved the one it numbered. */
  predicate AllComplete(steps: seq<Step>) {
    steps == []
    || (AllComplete(steps[..|steps| - 1]) && !Burns(Run(OPENING, steps[..|steps| - 1]), steps[|steps| - 1]))
  }

  /** Over completed calls alone, a year's numbers are exactly one to its last. */
  lemma {:induction false} CompletedRunsAreGapless(steps: seq<Step>, year: nat, k: nat)
    requires AllComplete(steps)
    ensures Gapless(Run(OPENING, steps))
    ensures Issued(Run(OPENING, steps), Number(year, k)) <==> 1 <= k <= Last(Run(OPENING, steps), year)
  {
    EveryRunNumbersOnce(steps, "");
    if steps != [] {
      var n := |steps| - 1;
      CompletedRunsAreGapless(steps[..n], year, k);
      EveryRunNumbersOnce(steps[..n], "");
      GaplessStep(Run(OPENING, steps[..n]), steps[n]);
    }
  }

  /** An invoice, once issued, is the one every later call returns. */
  lemma {:induction false} InvoicesStay(b: Books, steps: seq<Step>, order: nat)
    requires Valid(b) && order in b.invoices
    ensures var end := Run(b, steps);
            Valid(end) && order in end.invoices && end.invoices[order] == b.invoices[order]
  {
    if steps != [] {
      InvoicesStay(b, steps[..|steps| - 1], order);
      StepKeeps(Run(b, steps[..|steps| - 1]), steps[|steps| - 1]);
    }
  }

  // ----- the service -----

  class InvoiceDesk {
    var last: map<nat, nat>
    var invoices: map<nat, Invoice>

    function Snapshot(): Books
      reads this
    {
      Books(last, invoices)
    }

    constructor ()
      ensures Snapshot() == OPENING
    {
      last, invoices := map[], map[];
    }

    /** The sequence row is created on first use, then counted up. */
    method NextInvoiceNumber(year: nat) returns (n: Number)
      modifies this
      ensures n == Number(year, old(Last(Snapshot(), year)) + 1)
      ensures Snapshot() == old(Snapshot()).(last := old(last)[year := n.serial])
    {
      var number := 0;
      if year in last {
        number := last[year];
      }
      number := number + 1;
      last := last[year := number];
      n := Number(year, number);
    }

    /**
     The sums run over the order's items. The number is taken only if the caller found no invoice, and
     lost if another call saved one meanwhile: the row is then refused, and the call raises.
     */
    method GenerateInvoice(order: nat, found: bool, lines: seq<T.TaxedLine>, buyerState: string, sellerState: string,
                           orderTotal: int, year: nat, month: nat) returns (invoice: Option<Invoice>)
      requires year >= 1 && (found ==> order in invoices)
      modifies this
      ensures invoice.None? <==> !found && order in old(invoices)
      ensures invoice.Some? ==> order in invoices && invoices[order] == invoice.value
      ensures found ==> invoice == Some(old(invoices)[order]) && Snapshot() == old(Snapshot())
      ensures !found && invoice.Some? ==>
                && T.Bills(invoice.value.amounts, lines, buyerState, sellerState, orderTotal)
                && var start := if month >= 4 then year else year - 1;
                   && invoice.value.number.year == start
                   && invoice.value.number.serial == (if start in old(last) then old(last)[start] else 0) + 1
                   && last == old(last)[start := invoice.value.number.serial]
                   && invoices == old(invoices)[order := invoice.value]
      ensures var amounts := T.AmountsFor(lines, buyerState, sellerState, orderTotal);
              Snapshot() == Do(old(Snapshot()), Generate(order, FinancialYear(year, month), amounts, found, false))
    {
      if found {
        return Some(invoices[order]);
      }
      var amounts := T.AmountsFor(lines, buyerState, sellerState, orderTotal);
      T.InvoiceAddsUp(lines, buyerState, sellerState, orderTotal);
      var number := NextInvoiceNumber(FinancialYear(year, month));
      if order in invoices {
        return None;
      }
      invoices := invoices[order := Invoice(number, amounts)];
      invoice := Some(invoices[order]);
    }
  }
}
