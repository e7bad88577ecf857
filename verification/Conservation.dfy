/**
 Units are conserved: what is on the shelf plus what buyers have is what the
 shop opened with plus what came in from outside. And two short traces showing
 that the two leaking transactions are real.
 */
module Conservation {
  import opened Wrappers
  import opened Stock
  import opened Orders
  import opened AuditTrail
  import opened Ownership

  /** Units that deliveries, customer returns and corrections brought in, or took out. */
  function FromOutside(ledger: seq<Movement>, t: Target): int {
    if ledger == [] then 0
    else
      var n := |ledger| - 1;
      FromOutside(ledger[..n], t)
      + if ledger[n].target == t && ledger[n].kind.External() then ledger[n].stockDelta else 0
  }

  lemma PostFromOutside(inv: Inventory, kind: Kind, source: Source, u: Target, c: Counter, t: Target)
    requires u in inv.counters
    ensures FromOutside(Post(inv, kind, source, u, c).ledger, t) ==
            FromOutside(inv.ledger, t)
            + if u == t && kind.External() then c.stock - inv.counters[u].stock else 0
  {
  }

  lemma {:induction false} LinesFromOutside(inv: Inventory, kind: Kind, source: Source, lines: seq<Line>, t: Target)
    requires Known(inv.counters, lines) && !kind.External()
    ensures FromOutside(PostLines(inv, kind, source, lines).ledger, t) == FromOutside(inv.ledger, t)
  {
    if lines != [] {
      var n := |lines| - 1;
      LinesFromOutside(inv, kind, source, lines[..n], t);
      if lines[n].Target().Some? {
        var rest, u := PostLines(inv, kind, source, lines[..n]), lines[n].Target().value;
        var c := Moved(kind, rest.counters[u], lines[n].quantity);
        PostFromOutside(rest, kind, source, u, c, t);
        assert PostLines(inv, kind, source, lines) == Post(rest, kind, source, u, c);
      }
    }
  }

  ghost predicate Conserved(opening: Counters, s: Shop) {
    && s.inventory.counters.Keys == opening.Keys
    && forall t <- opening ::
         s.inventory.counters[t].stock + Units(WithBuyer, s.orders, t)
         == opening[t].stock + FromOutside(s.inventory.ledger, t)
  }

  /** Units of `t` that a posting sells beyond what is on hand: the count stops at zero. */
  function Shortfall(inv: Inventory, p: Posting, t: Target): nat
    requires t in inv.counters
  {
    if p.LinesOf? && p.kind == Sold && Demand(p.lines, t) > inv.counters[t].stock
    then Demand(p.lines, t) - inv.counters[t].stock else 0
  }

  /** The stock side of one posting. */
  lemma StockMoves(inv: Inventory, p: Posting, t: Target)
    requires t in inv.counters
    requires p.LinesOf? ==> Known(inv.counters, p.lines) && !p.kind.External()
    requires p.Shelf? ==> p.target in inv.counters && p.kind.External()
    ensures t in Posted(inv, p).counters
    ensures Posted(inv, p).counters[t].stock - inv.counters[t].stock ==
            FromOutside(Posted(inv, p).ledger, t) - FromOutside(inv.ledger, t)
            - SoldBy(p, t) + Shortfall(inv, p, t)
  {
    match p {
      case NoPosting =>
      case LinesOf(kind, order, lines) =>
        PostLinesClosed(inv, kind, OfOrder(order), lines, t);
        LinesFromOutside(inv, kind, OfOrder(order), lines, t);
      case Shelf(kind, source, u, c) => PostFromOutside(inv, kind, source, u, c, t);
    }
  }

  /** Units of `t` that a posting sells, less those it puts back. */
  function SoldBy(e: Posting, t: Target): int {
    if e.LinesOf? && e.kind == Sold then Demand(e.lines, t)
    else if e.LinesOf? && e.kind == Restored then 0 - Demand(e.lines, t)
    else 0
  }

  /** The buyers' side of a step. */
  lemma BuyersStep(s: Shop, step: Step, t: Target)
    requires Booked(s)
    ensures Units(WithBuyer, Apply(s, step).orders, t) == Units(WithBuyer, s.orders, t) + SoldBy(Effect(s, step), t)
  {
    if OnAnOrder(step) && step.order < |s.orders| {
      OrderBuyers(s, step.order, step, t);
    } else if step.Checkout? {
      CheckoutBuyers(s, step.lines, t);
    } else {
      ShelfBuyers(s, step, t);
    }
  }

  lemma CheckoutPlaces(s: Shop, lines: seq<Line>, t: Target)
    requires Valid(s)
    ensures var orders := Apply(s, Checkout(lines)).orders; orders == s.orders || orders == s.orders + [NewOrder(lines)]
    ensures SoldBy(Effect(s, Checkout(lines)), t) == 0
  {
  }

  lemma CheckoutBuyers(s: Shop, lines: seq<Line>, t: Target)
    requires Valid(s)
    ensures Units(WithBuyer, Apply(s, Checkout(lines)).orders, t) == Units(WithBuyer, s.orders, t)
    ensures SoldBy(Effect(s, Checkout(lines)), t) == 0
  {
    CheckoutPlaces(s, lines, t);
    NoBuyerYet(s.orders, lines, t);
  }

  lemma NoBuyerYet(orders: seq<Order>, lines: seq<Line>, t: Target)
    ensures Units(WithBuyer, orders + [NewOrder(lines)], t) == Units(WithBuyer, orders, t)
  {
    UnitsAdded(WithBuyer, orders, NewOrder(lines), t);
    assert !WasConfirmed(NewOrder(lines));
  }

  lemma ShelfBuyers(s: Shop, step: Step, t: Target)
    requires Valid(s) && !step.Checkout? && !(OnAnOrder(step) && step.order < |s.orders|)
    ensures Apply(s, step).orders == s.orders && SoldBy(Effect(s, step), t) == 0
  {
  }

  lemma OrderBuyers(s: Shop, i: nat, step: Step, t: Target)
    requires Booked(s) && OnAnOrder(step) && step.order == i < |s.orders|
    ensures Units(WithBuyer, Apply(s, step).orders, t) == Units(WithBuyer, s.orders, t) + SoldBy(Effect(s, step), t)
  {
    var o := s.orders[i];
    var coverable := Coverable(s.inventory.counters, o.lines);
    assert Tracked(o);
    DecisionBuyers(o, step, coverable, i, t);
    UnitsReplaced(WithBuyer, s.orders, i, Decide(o, step, coverable).order, t);
  }

  lemma DecisionBuyers(o: Order, step: Step, coverable: bool, i: nat, t: Target)
    requires Tracked(o)
    ensures var d := Decide(o, step, coverable);
            UnitsOf(WithBuyer, d.order, t) == UnitsOf(WithBuyer, o, t)
              + SoldBy(if d.kind.Some? then LinesOf(d.kind.value, i, o.lines) else NoPosting, t)
  {
    DecisionShape(o, step, coverable);
    DecisionFlags(o, step, coverable);
  }

  /** A capture of a waiting order that wants more of some target than is on hand. */
  predicate Oversells(s: Shop, step: Step) {
    && step.CaptureReported? && step.order < |s.orders| && s.orders[step.order].status == AwaitingPayment
    && exists t <- s.inventory.counters :: Demand(s.orders[step.order].lines, t) > s.inventory.counters[t].stock
  }

  /** Only captures of waiting orders sell; what no order does comes from outside. */
  lemma EffectKinds(s: Shop, step: Step)
    requires Valid(s)
    ensures var e := Effect(s, step);
            && (e.LinesOf? ==> !e.kind.External())
            && (e.LinesOf? && e.kind == Sold
                <==> step.CaptureReported? && step.order < |s.orders| && s.orders[step.order].status == AwaitingPayment)
            && (e.LinesOf? && e.kind == Sold ==> e.order == step.order && e.lines == s.orders[step.order].lines)
  {
  }

  lemma ConservedAt(s: Shop, step: Step, t: Target)
    requires Booked(s) && t in s.inventory.counters
    ensures t in Apply(s, step).inventory.counters
    ensures Apply(s, step).inventory.counters[t].stock + Units(WithBuyer, Apply(s, step).orders, t)
            - FromOutside(Apply(s, step).inventory.ledger, t)
            == s.inventory.counters[t].stock + Units(WithBuyer, s.orders, t) - FromOutside(s.inventory.ledger, t)
               + Shortfall(s.inventory, Effect(s, step), t)
  {
    EffectKinds(s, step);
    BuyersStep(s, step, t);
    StockMoves(s.inventory, Effect(s, step), t);
  }

  lemma OversaleIsShort(s: Shop, step: Step)
    requires Valid(s)
    ensures Oversells(s, step) <==> exists t <- s.inventory.counters :: Shortfall(s.inventory, Effect(s, step), t) > 0
  {
    EffectKinds(s, step);
    if Oversells(s, step) {
      var t :| t in s.inventory.counters && Demand(s.orders[step.order].lines, t) > s.inventory.counters[t].stock;
      assert Shortfall(s.inventory, Effect(s, step), t) > 0;
    }
  }

  /** Units are conserved by a step exactly when it is not an oversale: no other step makes or loses any. */
  lemma ConservedStep(opening: Counters, s: Shop, step: Step)
    requires Booked(s) && Conserved(opening, s)
    ensures Conserved(opening, Apply(s, step)) <==> !Oversells(s, step)
  {
    var s' := Apply(s, step);
    OversaleIsShort(s, step);
    forall t | t in opening
      ensures s'.inventory.counters[t].stock + Units(WithBuyer, s'.orders, t)
              == opening[t].stock + FromOutside(s'.inventory.ledger, t)
              <==> Shortfall(s.inventory, Effect(s, step), t) == 0
    {
      ConservedAt(s, step, t);
    }
  }

  /** No capture of the run oversells. */
  predicate WithoutOversales(s: Shop, steps: seq<Step>)
    requires Valid(s)
  {
    steps == []
    || (WithoutOversales(s, steps[..|steps| - 1])
        && !Oversells(Run(s, steps[..|steps| - 1]), steps[|steps| - 1]))
  }

  /** Over every run without oversales, whatever else it does to holds and counts, units are conserved. */
  lemma {:induction false} EveryRunWithoutOversalesConserved(counters: Counters, steps: seq<Step>)
    requires WithoutOversales(Opening(counters), steps)
    ensures Conserved(counters, Run(Opening(counters), steps))
  {
    if steps != [] {
      var front := steps[..|steps| - 1];
      EveryRunWithoutOversalesConserved(counters, front);
      EveryRunBooked(counters, front);
      ConservedStep(counters, Run(Opening(counters), front), steps[|steps| - 1]);
    }
  }

  /** Where nothing is short and holds are on hand, no step oversells. */
  lemma HeldIsNotOversold(s: Shop, step: Step)
    requires NeverShort(s) && Backed(s)
    ensures !Oversells(s, step)
  {
    if step.CaptureReported? && step.order < |s.orders| && s.orders[step.order].status == AwaitingPayment {
      HeldForOrder(s, step.order);
    }
  }

  /** Runs without the two leaks that feed one have no oversale. */
  lemma {:induction false} SoundRunsDoNotOversell(counters: Counters, steps: seq<Step>)
    requires NothingHeld(counters)
    requires WithoutOverdrafts(Opening(counters), steps) && WithoutUndercuts(Opening(counters), steps)
    ensures WithoutOversales(Opening(counters), steps)
  {
    if steps != [] {
      var front := steps[..|steps| - 1];
      SoundRunsDoNotOversell(counters, front);
      EveryRunOwned(counters, front);
      EveryRunBacked(counters, front);
      HeldIsNotOversold(Run(Opening(counters), front), steps[|steps| - 1]);
    }
  }

  /**
   Over every run without cancellations after a failed payment and without
   corrections below the held units: nothing is oversold, the next capture takes
   exactly what was ordered, and units are conserved for every target.
   */
  lemma EveryRunConserved(counters: Counters, steps: seq<Step>)
    requires NothingHeld(counters)
    requires WithoutOverdrafts(Opening(counters), steps) && WithoutUndercuts(Opening(counters), steps)
    ensures var s := Run(Opening(counters), steps);
            && Conserved(counters, s)
            && Backed(s)
            && forall i: nat | i < |s.orders| && s.orders[i].status == AwaitingPayment :: SellsExactly(s, i)
  {
    var s := Run(Opening(counters), steps);
    SoundRunsDoNotOversell(counters, steps);
    EveryRunWithoutOversalesConserved(counters, steps);
    EveryRunBooked(counters, steps);
    EveryRunOwned(counters, steps);
    EveryRunBacked(counters, steps);
    forall i: nat | i < |s.orders| && s.orders[i].status == AwaitingPayment
      ensures SellsExactly(s, i)
    {
      CaptureIsExact(s, i);
    }
  }

  // ----- the leaks are real -----

  const ONE_UNIT: seq<Line> := [Line(Some(0), None, 1)]
  const SHELF := OfProduct(0)

  /** A step on a shop with a single target that posts one line for one unit. */
  lemma OneUnitStep(s: Shop, step: Step, c: Counter)
    requires Valid(s) && s.inventory.counters == map[SHELF := c]
    requires Effect(s, step).LinesOf? && Effect(s, step).lines == ONE_UNIT
    ensures Apply(s, step).inventory.counters == map[SHELF := Moved(Effect(s, step).kind, c, 1)]
  {
    assert ONE_UNIT[..0] == [];
    CounterStep(s, step, SHELF);
  }

  lemma OneUnitCheckout(s: Shop, c: Counter)
    requires Valid(s) && s.inventory.counters == map[SHELF := c] && c.Available() > 0
    ensures var s' := Apply(s, Checkout(ONE_UNIT));
            && s'.inventory.counters == map[SHELF := Counter(c.stock, c.reserved + 1)]
            && s'.orders == s.orders + [NewOrder(ONE_UNIT)]
  {
    assert ONE_UNIT[..0] == [];
    assert Known(s.inventory.counters, ONE_UNIT) && Coverable(s.inventory.counters, ONE_UNIT);
    SoftCheckIsRedundant(s.inventory.counters, ONE_UNIT);
    OneUnitStep(s, Checkout(ONE_UNIT), c);
  }

  /** A shop of one shelf, with orders for one unit each, summed up. */
  ghost predicate Looks(s: Shop, c: Counter, statuses: seq<Status>) {
    s.inventory.counters == map[SHELF := c] && OneUnitEach(s.orders, statuses)
  }

  /** How a run from one unit in stock looks at its end. */
  ghost predicate Reaches(steps: seq<Step>, c: Counter, statuses: seq<Status>) {
    Looks(Run(Opening(map[SHELF := Counter(1, 0)]), steps), c, statuses)
  }

  lemma NextCheckout(steps: seq<Step>, c: Counter, statuses: seq<Status>)
    requires Reaches(steps, c, statuses) && c.Available() > 0
    ensures Reaches(steps + [Checkout(ONE_UNIT)], Counter(c.stock, c.reserved + 1), statuses + [AwaitingPayment])
  {
    var s0 := Opening(map[SHELF := Counter(1, 0)]);
    RunOneMore(s0, steps, Checkout(ONE_UNIT));
    OneUnitCheckout(Run(s0, steps), c);
  }

  predicate Reports(step: Step, i: nat, was: Status, to: Status) {
    || (step == FailureReported(i) && was == AwaitingPayment && to == PaymentFailed)
    || (step == CaptureReported(i) && was == AwaitingPayment && to == PaymentConfirmed)
    || (step == Cancel(i, PaymentFailed) && was == PaymentFailed && to == Cancelled)
  }

  lemma ReportOnOne(s: Shop, step: Step, c: Counter, to: Status)
    requires Valid(s) && s.inventory.counters == map[SHELF := c]
    requires OnAnOrder(step) && step.order < |s.orders| && s.orders[step.order].lines == ONE_UNIT
    requires Reports(step, step.order, s.orders[step.order].status, to)
    ensures var s' := Apply(s, step);
            && s'.inventory.counters == map[SHELF := Moved(if step.CaptureReported? then Sold else Released, c, 1)]
            && s'.orders == s.orders[step.order := SetStatus(s.orders[step.order], to)]
  {
    OneUnitStep(s, step, c);
  }

  lemma ReportLooks(s: Shop, c: Counter, statuses: seq<Status>, i: nat, step: Step, to: Status)
    requires Valid(s) && Looks(s, c, statuses) && i < |statuses| && Reports(step, i, statuses[i], to)
    ensures Looks(Apply(s, step), Moved(if step.CaptureReported? then Sold else Released, c, 1), statuses[i := to])
  {
    ReportOnOne(s, step, c, to);
    StatusReplaced(s.orders, statuses, i, to);
  }

  predicate OneUnitEach(orders: seq<Order>, statuses: seq<Status>) {
    |orders| == |statuses|
    && forall i | 0 <= i < |statuses| :: orders[i].status == statuses[i] && orders[i].lines == ONE_UNIT
  }

  lemma StatusReplaced(orders: seq<Order>, statuses: seq<Status>, i: nat, to: Status)
    requires OneUnitEach(orders, statuses) && i < |statuses|
    ensures OneUnitEach(orders[i := SetStatus(orders[i], to)], statuses[i := to])
  {
  }

  lemma NextReport(steps: seq<Step>, c: Counter, statuses: seq<Status>, i: nat, step: Step, after: seq<Status>)
    requires Reaches(steps, c, statuses) && i < |statuses| == |after| && after == statuses[i := after[i]]
    requires Reports(step, i, statuses[i], after[i])
    ensures Reaches(steps + [step], Moved(if step.CaptureReported? then Sold else Released, c, 1), after)
  {
    var s0 := Opening(map[SHELF := Counter(1, 0)]);
    RunOneMore(s0, steps, step);
    ReportLooks(Run(s0, steps), c, statuses, i, step, after[i]);
  }

  /**
   One unit in stock. The first order's payment fails, the second order takes
   the unit, the first is then cancelled and releases the second order's hold,
   so a third order gets it too. Both pay: two orders are confirmed on one unit.
   */
  lemma CancelAfterFailureOversells() returns (run: seq<Step>)
    ensures Reaches(run, Counter(0, 0), [Cancelled, PaymentConfirmed, PaymentConfirmed])
    ensures forall step <- run :: !step.Correct? && !step.Restock? && !step.TakeBack? && !step.RefundReported?
  {
    run := SecondOrderTakesTheUnit();
    CancelFirst(run);
    run := BothPay(run + [Cancel(0, PaymentFailed)] + [Checkout(ONE_UNIT)]);
  }

  lemma CancelFirst(run: seq<Step>)
    requires Reaches(run, Counter(1, 1), [PaymentFailed, AwaitingPayment])
    ensures Reaches(run + [Cancel(0, PaymentFailed)] + [Checkout(ONE_UNIT)], Counter(1, 1),
                    [Cancelled, AwaitingPayment, AwaitingPayment])
  {
    var cancelled := [Cancelled, AwaitingPayment];
    assert Reaches(run + [Cancel(0, PaymentFailed)], Counter(1, 0), cancelled) by {
      NextReport(run, Counter(1, 1), [PaymentFailed, AwaitingPayment], 0, Cancel(0, PaymentFailed), cancelled);
      assert Moved(Released, Counter(1, 1), 1) == Counter(1, 0);
    }
    NextCheckout(run + [Cancel(0, PaymentFailed)], Counter(1, 0), cancelled);
    assert cancelled + [AwaitingPayment] == [Cancelled, AwaitingPayment, AwaitingPayment];
  }

  lemma FirstOrder()
    ensures Reaches([Checkout(ONE_UNIT)], Counter(1, 1), [AwaitingPayment])
  {
    assert Reaches([], Counter(1, 0), []);
    NextCheckout([], Counter(1, 0), []);
    assert [] + [Checkout(ONE_UNIT)] == [Checkout(ONE_UNIT)];
    assert [] + [AwaitingPayment] == [AwaitingPayment];
  }

  lemma FirstOrderFails(run: seq<Step>)
    requires Reaches(run, Counter(1, 1), [AwaitingPayment])
    ensures Reaches(run + [FailureReported(0)], Counter(1, 0), [PaymentFailed])
  {
    NextReport(run, Counter(1, 1), [AwaitingPayment], 0, FailureReported(0), [PaymentFailed]);
    assert Moved(Released, Counter(1, 1), 1) == Counter(1, 0);
  }

  lemma SecondOrderTakesTheUnit() returns (run: seq<Step>)
    ensures Reaches(run, Counter(1, 1), [PaymentFailed, AwaitingPayment])
    ensures run == [Checkout(ONE_UNIT)] + [FailureReported(0)] + [Checkout(ONE_UNIT)]
  {
    run := [Checkout(ONE_UNIT)];
    FirstOrder();
    FirstOrderFails(run);
    run := run + [FailureReported(0)];
    NextCheckout(run, Counter(1, 0), [PaymentFailed]);
    run := run + [Checkout(ONE_UNIT)];
    assert [PaymentFailed] + [AwaitingPayment] == [PaymentFailed, AwaitingPayment];
  }

  lemma SecondOrderPays(steps: seq<Step>)
    requires Reaches(steps, Counter(1, 1), [Cancelled, AwaitingPayment, AwaitingPayment])
    ensures Reaches(steps + [CaptureReported(1)], Counter(0, 0), [Cancelled, PaymentConfirmed, AwaitingPayment])
  {
    NextReport(steps, Counter(1, 1), [Cancelled, AwaitingPayment, AwaitingPayment], 1, CaptureReported(1),
               [Cancelled, PaymentConfirmed, AwaitingPayment]);
    assert Moved(Sold, Counter(1, 1), 1) == Counter(0, 0);
  }

  lemma ThirdOrderPays(steps: seq<Step>)
    requires Reaches(steps, Counter(0, 0), [Cancelled, PaymentConfirmed, AwaitingPayment])
    ensures Reaches(steps + [CaptureReported(2)], Counter(0, 0), [Cancelled, PaymentConfirmed, PaymentConfirmed])
  {
    NextReport(steps, Counter(0, 0), [Cancelled, PaymentConfirmed, AwaitingPayment], 2, CaptureReported(2),
               [Cancelled, PaymentConfirmed, PaymentConfirmed]);
    assert Moved(Sold, Counter(0, 0), 1) == Counter(0, 0);
  }

  lemma BothPay(steps: seq<Step>) returns (run: seq<Step>)
    requires Reaches(steps, Counter(1, 1), [Cancelled, AwaitingPayment, AwaitingPayment])
    ensures Reaches(run, Counter(0, 0), [Cancelled, PaymentConfirmed, PaymentConfirmed])
    ensures run == steps + [CaptureReported(1)] + [CaptureReported(2)]
  {
    SecondOrderPays(steps);
    run := steps + [CaptureReported(1)];
    ThirdOrderPays(run);
    run := run + [CaptureReported(2)];
  }

  /** A refund reported before payment strands the hold: a unit stays reserved that no order is entitled to. */
  lemma RefundStrandsTheHold(s: Shop, i: nat, full: bool, t: Target)
    requires Booked(s) && Owned(s) && i < |s.orders| && s.orders[i].status == AwaitingPayment
    requires t in s.inventory.counters && Demand(s.orders[i].lines, t) > 0
    ensures var s' := Apply(s, RefundReported(i, full));
            t in s'.inventory.counters && HeldUnits(s', t) == Entitled(s', t) + Demand(s.orders[i].lines, t)
  {
    StepBalance(s, RefundReported(i, full), t);
  }
}
