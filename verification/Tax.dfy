/**
 GST on tax-inclusive prices, line by line and over an invoice.

 Amounts are whole paise and rates are hundredths of a percent, the precision of
 the stored fields. The tax of a line is worked back out of its total and
 rounded; the lemmas say what that costs and what an invoice built from such
 lines adds up to.
 */
module Tax {
  import opened Rounding

  datatype TaxedLine = TaxedLine(unitPrice: nat, quantity: nat, rate: nat) {
    function Total(): nat {
      unitPrice * quantity
    }

    function Rate(): real {
      rate as real / 10000.0
    }

    function ExactTax(): real {
      Total() as real * Rate() / (1.0 + Rate())
    }

    function TaxAmount(): int {
      if rate == 0 then 0 else RoundHalfEven(ExactTax())
    }

    function TaxableValue(): int {
      Total() - TaxAmount()
    }
  }

  datatype Amounts = Amounts(taxable: int, cgst: int, sgst: int, igst: int, tax: int, total: int)

  /** What the buyer pays for the lines before any discount: price times quantity, summed up. */
  function TotalOf(lines: seq<TaxedLine>): nat {
    if lines == [] then 0
    else
      var last := lines[|lines| - 1];
      TotalOf(lines[..|lines| - 1]) + last.unitPrice * last.quantity
  }

  function TaxOf(lines: seq<TaxedLine>): int {
    if lines == [] then 0 else TaxOf(lines[..|lines| - 1]) + lines[|lines| - 1].TaxAmount()
  }

  function TaxableOf(lines: seq<TaxedLine>): int {
    if lines == [] then 0 else TaxableOf(lines[..|lines| - 1]) + lines[|lines| - 1].TaxableValue()
  }

  function ExactTaxOf(lines: seq<TaxedLine>): real {
    if lines == [] then 0.0 else ExactTaxOf(lines[..|lines| - 1]) + lines[|lines| - 1].ExactTax()
  }

  /** States come trimmed and lower-cased; a shop with no state of its own never ships interstate. */
  predicate Interstate(buyerState: string, sellerState: string) {
    sellerState != "" && buyerState != sellerState
  }

  function AmountsFor(lines: seq<TaxedLine>, buyerState: string, sellerState: string, orderTotal: int): Amounts {
    var tax := TaxOf(lines);
    if Interstate(buyerState, sellerState) then Amounts(TaxableOf(lines), 0, 0, tax, tax, orderTotal)
    else
      var half := RoundHalfEven(tax as real / 2.0);
      Amounts(TaxableOf(lines), half, half, 0, tax, orderTotal)
  }

  /** The exact tax solves the equation it comes from: the net amount, taxed again, is the tax. */
  lemma ExactTaxIsTheRateOnTheNet(l: TaxedLine)
    ensures (l.Total() as real - l.ExactTax()) * l.Rate() == l.ExactTax()
    ensures l.ExactTax() * (10000 + l.rate) as real == l.Total() as real * l.rate as real
    ensures 0.0 <= l.ExactTax() <= l.Total() as real
  {
    var e, t, r := l.ExactTax(), l.Total() as real, l.Rate();
    assert e * (1.0 + r) == t * r;
    assert e * (10000 + l.rate) as real == 10000.0 * (e * (1.0 + r));
  }

  /** A line's tax is between nothing and the whole line, and half a paisa at most from the exact tax. */
  lemma TaxIsInTheLine(l: TaxedLine)
    ensures 0 <= l.TaxAmount() <= l.Total()
    ensures -0.5 <= l.TaxAmount() as real - l.ExactTax() <= 0.5
  {
    ExactTaxIsTheRateOnTheNet(l);
    RoundsToNearest(l.ExactTax(), RoundHalfEven(l.ExactTax()));
    RoundingIsMonotone(0.0, l.ExactTax());
    RoundingIsMonotone(l.ExactTax(), l.Total() as real);
    WholeStays(0);
    WholeStays(l.Total());
  }

  /**
   The tax of a line by its price, quantity and rate alone: the nearest paisa to the part that the rate
   is of a hundred percent plus the rate, the even one of two.
   */
  lemma TaxByTheRate(l: TaxedLine)
    ensures var miss := 2 * (l.TaxAmount() * (10000 + l.rate) - l.unitPrice * l.quantity * l.rate);
            && -(10000 + l.rate) <= miss <= 10000 + l.rate
            && (miss == 10000 + l.rate || miss == -(10000 + l.rate) ==> l.TaxAmount() % 2 == 0)
            && l.TaxableValue() + l.TaxAmount() == l.unitPrice * l.quantity
  {
    ExactTaxIsTheRateOnTheNet(l);
    TaxIsNearest(l);
    RealProduct(l.Total(), l.rate);
    ScaledMiss(l.TaxAmount(), l.ExactTax(), l.Total() * l.rate, 10000 + l.rate);
  }

  lemma TaxIsNearest(l: TaxedLine)
    ensures NearestEven(l.TaxAmount(), l.ExactTax())
  {
    RoundsToNearest(l.ExactTax(), RoundHalfEven(l.ExactTax()));
    ExactTaxIsTheRateOnTheNet(l);
  }

  lemma RealProduct(a: int, b: int)
    ensures (a * b) as real == a as real * b as real
  {
  }

  lemma ScaledMiss(n: int, exact: real, part: int, whole: int)
    requires whole > 0 && exact * whole as real == part as real && -0.5 <= n as real - exact <= 0.5
    ensures var miss := 2 * (n * whole - part);
            && -whole <= miss <= whole
            && (miss == whole ==> n as real - exact == 0.5) && (miss == -whole ==> n as real - exact == -0.5)
  {
    var off, w := n as real - exact, whole as real;
    assert n as real * w == (n * whole) as real;
    Difference(n as real, exact, w);
    WithinHalf(off, w, (n * whole - part) as real);
  }

  lemma Difference(a: real, b: real, c: real)
    ensures (a - b) * c == a * c - b * c
  {
  }

  lemma WithinHalf(off: real, w: real, miss: real)
    requires w > 0.0 && off * w == miss && -0.5 <= off <= 0.5
    ensures 0.0 - w <= 2.0 * miss <= w
    ensures (2.0 * miss == w ==> off == 0.5) && (2.0 * miss == 0.0 - w ==> off == -0.5)
  {
    Difference(0.5, off, w);
    Difference(0.5, 0.0 - off, w);
    ProductSign(0.5 - off, w);
    ProductSign(0.5 + off, w);
  }

  /** Taxing the rounded net value gives the rounded tax back, within half a paisa and the rate on it. */
  lemma TaxingTheNetAgain(l: TaxedLine)
    ensures var miss := l.TaxableValue() as real * l.Rate() - l.TaxAmount() as real;
            0.0 - 0.5 * (1.0 + l.Rate()) <= miss <= 0.5 * (1.0 + l.Rate())
  {
    TaxIsInTheLine(l);
    ExactTaxIsTheRateOnTheNet(l);
    Missed(l.TaxableValue() as real, l.TaxAmount() as real, l.ExactTax(), l.Rate());
  }

  lemma Missed(net: real, tax: real, exact: real, rate: real)
    requires (net + tax - exact) * rate == exact
    requires -0.5 <= exact - tax <= 0.5 && rate >= 0.0
    ensures 0.0 - 0.5 * (1.0 + rate) <= net * rate - tax <= 0.5 * (1.0 + rate)
  {
    assert net * rate == (net + tax - exact) * rate + (exact - tax) * rate;
    ProductSign(0.5 - (exact - tax), rate);
    ProductSign(0.5 + (exact - tax), rate);
  }

  lemma {:induction false} LinesAddUp(lines: seq<TaxedLine>)
    ensures TaxableOf(lines) + TaxOf(lines) == TotalOf(lines)
    ensures 0 <= TaxOf(lines) <= TotalOf(lines)
    ensures -(|lines| as real / 2.0) <= TaxOf(lines) as real - ExactTaxOf(lines) <= |lines| as real / 2.0
  {
    if lines != [] {
      LinesAddUp(lines[..|lines| - 1]);
      TaxIsInTheLine(lines[|lines| - 1]);
    }
  }

  /**
   What an invoice promises. Nothing is lost between the taxable amount and the tax; the tax is within
   half a paisa a line of the exact tax. A shop with a state of its own that sells into another bears
   the tax as IGST alone; any other sale bears two equal halves, which miss the tax by one paisa
   exactly when it is odd.
   */
  predicate Bills(a: Amounts, lines: seq<TaxedLine>, buyerState: string, sellerState: string, orderTotal: int) {
    && a.taxable + a.tax == TotalOf(lines) && a.total == orderTotal
    && 0 <= a.tax <= TotalOf(lines)
    && -(|lines| as real / 2.0) <= a.tax as real - ExactTaxOf(lines) <= |lines| as real / 2.0
    && (sellerState != "" && sellerState != buyerState ==> a.igst == a.tax && a.cgst == 0 && a.sgst == 0)
    && (sellerState == "" || sellerState == buyerState ==>
          && a.igst == 0 && a.cgst == a.sgst
          && a.cgst + a.sgst - a.tax == if a.tax % 2 == 0 then 0 else if a.tax % 4 == 1 then -1 else 1)
  }

  lemma InvoiceAddsUp(lines: seq<TaxedLine>, buyerState: string, sellerState: string, orderTotal: int)
    ensures Bills(AmountsFor(lines, buyerState, sellerState, orderTotal), lines, buyerState, sellerState, orderTotal)
  {
    LinesAddUp(lines);
    HalvesOf(TaxOf(lines));
  }

  /** The lines of an invoice add up to the order's subtotal, so its stated total is short by the discount. */
  lemma InvoiceIgnoresTheDiscount(lines: seq<TaxedLine>, buyerState: string, sellerState: string, discount: int)
    ensures var a := AmountsFor(lines, buyerState, sellerState, TotalOf(lines) - discount);
            a.taxable + a.tax == a.total <==> discount == 0
  {
  }
}
