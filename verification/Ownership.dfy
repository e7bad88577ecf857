/**
 Who owns each reserved unit, and why nothing is oversold.

 The reserved counter of a target should be exactly what unpaid orders are
 entitled to. Two transactions of the shop break that, and only those two:
 cancelling an order whose payment failed releases a hold that is no longer its
 own, and a refund report moves an unpaid order on without releasing anything.
 */
module Ownership {
  import opened Wrappers
  import opened Stock
  import opened Orders
  import opened AuditTrail

  // ----- the claims of all orders -----

  lemma {:induction false} UnitsReplaced(c: Claim, orders: seq<Order>, i: nat, o: Order, t: Target)
    requires i < |orders|
    ensures UnitsOf(c, orders[i], t) <= Units(c, orders, t)
    ensures Units(c, orders[i := o], t) == Units(c, orders, t) - UnitsOf(c, orders[i], t) + UnitsOf(c, o, t)
  {
    var n := |orders| - 1;
    if i == n {
      assert orders[i := o][..n] == orders[..n];
    } else {
      UnitsReplaced(c, orders[..n], i, o, t);
      assert orders[i := o][..n] == orders[..n][i := o];
    }
  }

  lemma UnitsAdded(c: Claim, orders: seq<Order>, o: Order, t: Target)
    ensures Units(c, orders + [o], t) == Units(c, orders, t) + UnitsOf(c, o, t)
  {
  }

  function CounterAfter(p: Posting, t: Target, c: Counter): Counter {
    match p
    case NoPosting => c
    case LinesOf(kind, _, lines) => Moved(kind, c, Demand(lines, t))
    case Shelf(_, _, u, c') => if u == t then c' else c
  }

  /** What a step leaves on the counter of one target. */
  lemma CounterStep(s: Shop, step: Step, t: Target)
    requires Valid(s) && t in s.inventory.counters
    ensures t in Apply(s, step).inventory.counters
    ensures var c := s.inventory.counters[t];
            Apply(s, step).inventory.counters[t] == CounterAfter(Effect(s, step), t, c)
  {
    if Effect(s, step).LinesOf? {
      var p := Effect(s, step);
      PostLinesClosed(s.inventory, p.kind, OfOrder(p.order), p.lines, t);
    }
  }

  // ----- one step -----

  function HeldUnits(s: Shop, t: Target): nat
    requires t in s.inventory.counters
  {
    s.inventory.counters[t].reserved
  }

  function Entitled(s: Shop, t: Target): nat {
    Units(OnHold, s.orders, t)
  }

  /** Cancelling an order whose payment already failed: its hold was released then. */
  predicate OverdrawsOrder(o: Order, step: Step) {
    step.Cancel? && step.seen.Cancellable() && o.status == PaymentFailed
  }

  /** A refund reported for an order that is still awaiting payment. */
  predicate AbandonsOrder(o: Order, step: Step) {
    step.RefundReported? && o.status == AwaitingPayment
  }

  predicate Overdraws(s: Shop, step: Step) {
    OnAnOrder(step) && step.order < |s.orders| && OverdrawsOrder(s.orders[step.order], step)
  }

  predicate Abandons(s: Shop, step: Step) {
    OnAnOrder(step) && step.order < |s.orders| && AbandonsOrder(s.orders[step.order], step)
  }

  /** The lines whose units the step is about. */
  function LinesIn(s: Shop, step: Step): seq<Line> {
    if step.Checkout? then step.lines
    else if OnAnOrder(step) && step.order < |s.orders| then s.orders[step.order].lines
    else []
  }

  /** What a transaction posts, given whether its order is entitled to a hold before and after. */
  predicate HoldRule(kind: Option<Kind>, overdraws: bool, abandons: bool, before: bool, after: bool) {
    if overdraws then kind == Some(Released) && !before && !after
    else if abandons then kind == None && before && !after
    else if before == after then kind == None || kind == Some(Restored)
    else if after then kind == Some(Reserved)
    else kind == Some(Released) || kind == Some(Sold)
  }

  lemma HoldMoves(o: Order, step: Step, coverable: bool)
    requires Tracked(o) && OnAnOrder(step)
    ensures var d := Decide(o, step, coverable);
            && d.order.lines == o.lines
            && HoldRule(d.kind, OverdrawsOrder(o, step), AbandonsOrder(o, step),
                        o.status == AwaitingPayment, d.order.status == AwaitingPayment)
  {
  }

  /** The arithmetic of one target: `r` and `h` are its held and entitled units before the step. */
  predicate Balanced(overdraws: bool, abandons: bool, d: nat, r: nat, h: nat, r': nat, h': nat) {
    if overdraws then h' == h && r' == Max(r - d, 0)
    else if abandons then r' == r && h' == h - d
    else (r' == r && h' == h) || (r' == r + d && h' == h + d) || (r' == Max(r - d, 0) && h' == h - d)
  }

  lemma RuleBalances(kind: Option<Kind>, d: nat, overdraws: bool, abandons: bool, before: bool, after: bool,
                     c: Counter, h: nat)
    requires HoldRule(kind, overdraws, abandons, before, after)
    requires before ==> d <= h
    ensures Balanced(overdraws, abandons, d, c.reserved, h,
                     (if kind.None? then c else Moved(kind.value, c, d)).reserved,
                     h - (if before then d else 0) + (if after then d else 0))
  {
  }

  /** What a step does to the held units of one target and to what unpaid orders are entitled to. */
  lemma StepBalance(s: Shop, step: Step, t: Target)
    requires Booked(s) && t in s.inventory.counters
    ensures t in Apply(s, step).inventory.counters
    ensures Balanced(Overdraws(s, step), Abandons(s, step), Demand(LinesIn(s, step), t),
                     HeldUnits(s, t), Entitled(s, t),
                     HeldUnits(Apply(s, step), t), Entitled(Apply(s, step), t))
  {
    if OnAnOrder(step) && step.order < |s.orders| {
      OrderBalance(s, step.order, step, t);
    } else if step.Checkout? {
      CheckoutBalance(s, step.lines, t);
    } else {
      ShelfBalance(s, step, t);
    }
  }

  lemma ShelfBalance(s: Shop, step: Step, t: Target)
    requires Valid(s) && t in s.inventory.counters
    requires !step.Checkout? && !(OnAnOrder(step) && step.order < |s.orders|)
    ensures HeldUnits(Apply(s, step), t) == HeldUnits(s, t) && Entitled(Apply(s, step), t) == Entitled(s, t)
  {
  }

  lemma OrderBalance(s: Shop, i: nat, step: Step, t: Target)
    requires Booked(s) && t in s.inventory.counters && OnAnOrder(step) && step.order == i < |s.orders|
    ensures Balanced(Overdraws(s, step), Abandons(s, step), Demand(s.orders[i].lines, t),
                     HeldUnits(s, t), Entitled(s, t),
                     HeldUnits(Apply(s, step), t), Entitled(Apply(s, step), t))
  {
    var o := s.orders[i];
    var d := Decide(o, step, Coverable(s.inventory.counters, o.lines));
    assert Tracked(o);
    HoldMoves(o, step, Coverable(s.inventory.counters, o.lines));
    UnitsReplaced(OnHold, s.orders, i, d.order, t);
    CounterStep(s, step, t);
    RuleBalances(d.kind, Demand(o.lines, t), OverdrawsOrder(o, step), AbandonsOrder(o, step),
                 o.status == AwaitingPayment, d.order.status == AwaitingPayment, s.inventory.counters[t],
                 Entitled(s, t));
  }

  lemma CheckoutBalance(s: Shop, lines: seq<Line>, t: Target)
    requires Valid(s) && t in s.inventory.counters
    ensures var s', d := Apply(s, Checkout(lines)), Demand(lines, t);
            || (HeldUnits(s', t) == HeldUnits(s, t) && Entitled(s', t) == Entitled(s, t))
            || (HeldUnits(s', t) == HeldUnits(s, t) + d && Entitled(s', t) == Entitled(s, t) + d)
  {
    CounterStep(s, Checkout(lines), t);
    UnitsAdded(OnHold, s.orders, NewOrder(lines), t);
  }

  ghost predicate Owned(s: Shop) {
    forall t <- s.inventory.counters :: HeldUnits(s, t) == Entitled(s, t)
  }

  ghost predicate NeverShort(s: Shop) {
    forall t <- s.inventory.counters :: HeldUnits(s, t) >= Entitled(s, t)
  }

  ghost predicate NeverOver(s: Shop) {
    forall t <- s.inventory.counters :: HeldUnits(s, t) <= Entitled(s, t)
  }

  /** The step is one of the two, and there are units for it to take or to leave behind. */
  ghost predicate Leaks(s: Shop, step: Step) {
    || (Overdraws(s, step) && exists t <- s.inventory.counters ::
          Demand(LinesIn(s, step), t) > 0 && HeldUnits(s, t) > 0)
    || (Abandons(s, step) && exists t <- s.inventory.counters :: Demand(LinesIn(s, step), t) > 0)
  }

  /** Reservation ownership survives a step exactly when the step does not leak. */
  lemma OwnershipStep(s: Shop, step: Step)
    requires Booked(s) && Owned(s)
    ensures Owned(Apply(s, step)) <==> !Leaks(s, step)
  {
    forall t | t in s.inventory.counters
      ensures HeldUnits(s, t) == Entitled(s, t)
      ensures var d := Demand(LinesIn(s, step), t);
              HeldUnits(Apply(s, step), t) == Entitled(Apply(s, step), t)
              <==> !(Overdraws(s, step) && d > 0 && HeldUnits(s, t) > 0) && !(Abandons(s, step) && d > 0)
    {
      StepBalance(s, step, t);
    }
  }

  lemma BoundsStep(s: Shop, step: Step)
    requires Booked(s)
    ensures NeverOver(s) && !Abandons(s, step) ==> NeverOver(Apply(s, step))
    ensures NeverShort(s) && !Overdraws(s, step) ==> NeverShort(Apply(s, step))
  {
    forall t | t in s.inventory.counters
      ensures HeldUnits(s, t) <= Entitled(s, t) && !Abandons(s, step)
              ==> HeldUnits(Apply(s, step), t) <= Entitled(Apply(s, step), t)
      ensures HeldUnits(s, t) >= Entitled(s, t) && !Overdraws(s, step)
              ==> HeldUnits(Apply(s, step), t) >= Entitled(Apply(s, step), t)
    {
      StepBalance(s, step, t);
    }
  }

  // ----- whole runs -----

  /** No step of the run is a cancellation after a failed payment. */
  predicate WithoutOverdrafts(s: Shop, steps: seq<Step>)
    requires Valid(s)
  {
    steps == []
    || (WithoutOverdrafts(s, steps[..|steps| - 1])
        && !Overdraws(Run(s, steps[..|steps| - 1]), steps[|steps| - 1]))
  }

  /** No step of the run is a refund of an order awaiting payment. */
  predicate WithoutAbandoned(s: Shop, steps: seq<Step>)
    requires Valid(s)
  {
    steps == []
    || (WithoutAbandoned(s, steps[..|steps| - 1])
        && !Abandons(Run(s, steps[..|steps| - 1]), steps[|steps| - 1]))
  }

  /** A fresh shop holds nothing yet. */
  predicate NothingHeld(counters: Counters) {
    forall t <- counters :: counters[t].reserved == 0
  }

  /**
   Reservation ownership over whole runs. Without refunds of unpaid orders no
   more is ever held than unpaid orders are entitled to; without cancellations
   after a failed payment never less; without both, exactly as much.
   */
  lemma {:induction false} EveryRunOwned(counters: Counters, steps: seq<Step>)
    requires NothingHeld(counters)
    ensures var s := Run(Opening(counters), steps);
            && (WithoutAbandoned(Opening(counters), steps) ==> NeverOver(s))
            && (WithoutOverdrafts(Opening(counters), steps) ==> NeverShort(s))
            && (WithoutAbandoned(Opening(counters), steps) && WithoutOverdrafts(Opening(counters), steps) ==> Owned(s))
  {
    if steps != [] {
      var front := steps[..|steps| - 1];
      EveryRunOwned(counters, front);
      EveryRunBooked(counters, front);
      BoundsStep(Run(Opening(counters), front), steps[|steps| - 1]);
    }
  }

  // ----- no overselling -----

  ghost predicate Backed(s: Shop) {
    forall t <- s.inventory.counters :: s.inventory.counters[t].reserved <= s.inventory.counters[t].stock
  }

  /** A correction that leaves fewer units on hand than are held. */
  predicate Undercuts(s: Shop, step: Step) {
    && step.Correct? && step.delta != 0 && step.target in s.inventory.counters
    && Max(s.inventory.counters[step.target].stock + step.delta, 0) < s.inventory.counters[step.target].reserved
  }

  /** Units are only reserved when they are available; sales, releases and restorations keep holds on hand. */
  lemma LinesBacked(s: Shop, step: Step, t: Target)
    requires Valid(s) && Backed(s) && t in s.inventory.counters && Effect(s, step).LinesOf?
    ensures var c := CounterAfter(Effect(s, step), t, s.inventory.counters[t]); c.reserved <= c.stock
    ensures !step.Correct?
  {
    var p := Effect(s, step);
    assert p.kind == Reserved ==> Coverable(s.inventory.counters, p.lines);
  }

  lemma ShelfBacked(s: Shop, step: Step, t: Target)
    requires Valid(s) && Backed(s) && t in s.inventory.counters && !Effect(s, step).LinesOf?
    ensures var c := CounterAfter(Effect(s, step), t, s.inventory.counters[t]);
            c.reserved <= c.stock <==> !(Undercuts(s, step) && step.target == t)
  {
  }

  lemma BackedAt(s: Shop, step: Step, t: Target)
    requires Valid(s) && Backed(s) && t in s.inventory.counters
    ensures t in Apply(s, step).inventory.counters
    ensures var c := Apply(s, step).inventory.counters[t];
            c.reserved <= c.stock <==> !(Undercuts(s, step) && step.target == t)
  {
    CounterStep(s, step, t);
    if Effect(s, step).LinesOf? {
      LinesBacked(s, step, t);
    } else {
      ShelfBacked(s, step, t);
    }
  }

  /** Held units stay on hand exactly as long as no correction undercuts them. */
  lemma BackedStep(s: Shop, step: Step)
    requires Valid(s) && Backed(s)
    ensures Backed(Apply(s, step)) <==> !Undercuts(s, step)
  {
    var after := Apply(s, step).inventory.counters;
    assert after.Keys == s.inventory.counters.Keys;
    forall t | t in after
      ensures after[t].reserved <= after[t].stock <==> !(Undercuts(s, step) && step.target == t)
    {
      BackedAt(s, step, t);
    }
  }

  predicate WithoutUndercuts(s: Shop, steps: seq<Step>)
    requires Valid(s)
  {
    steps == []
    || (WithoutUndercuts(s, steps[..|steps| - 1])
        && !Undercuts(Run(s, steps[..|steps| - 1]), steps[|steps| - 1]))
  }

  lemma {:induction false} EveryRunBacked(counters: Counters, steps: seq<Step>)
    requires NothingHeld(counters) && WithoutUndercuts(Opening(counters), steps)
    ensures Backed(Run(Opening(counters), steps))
  {
    if steps != [] {
      var front := steps[..|steps| - 1];
      EveryRunBacked(counters, front);
      BackedStep(Run(Opening(counters), front), steps[|steps| - 1]);
    }
  }

  /** An unpaid order's units are held, and what is held is on hand. */
  lemma HeldForOrder(s: Shop, i: nat)
    requires NeverShort(s) && Backed(s)
    requires i < |s.orders| && s.orders[i].status == AwaitingPayment
    ensures forall t <- s.inventory.counters ::
              Demand(s.orders[i].lines, t) <= s.inventory.counters[t].reserved <= s.inventory.counters[t].stock
  {
    forall t | t in s.inventory.counters
      ensures Demand(s.orders[i].lines, t) <= s.inventory.counters[t].reserved <= s.inventory.counters[t].stock
    {
      assert HeldUnits(s, t) >= Entitled(s, t);
      UnitsReplaced(OnHold, s.orders, i, s.orders[i], t);
    }
  }

  lemma CapturePosts(s: Shop, i: nat)
    requires Valid(s) && i < |s.orders| && s.orders[i].status == AwaitingPayment
    ensures Known(s.inventory.counters, s.orders[i].lines)
    ensures Apply(s, CaptureReported(i)).inventory == PostLines(s.inventory, Sold, OfOrder(i), s.orders[i].lines)
  {
  }

  /** In closed form, what a sale posts when its units are held and on hand. */
  lemma SaleTakesItsUnits(inv: Inventory, i: nat, lines: seq<Line>)
    requires Known(inv.counters, lines)
    requires Covered(inv.counters, lines)
    ensures var inv' := PostLines(inv, Sold, OfOrder(i), lines);
            && inv'.ledger == inv.ledger + ExactSale(i, lines)
            && inv'.counters.Keys == inv.counters.Keys
            && forall t <- inv.counters ::
                 var c, d := inv.counters[t], Demand(lines, t);
                 inv'.counters[t] == Counter(c.stock - d, c.reserved - d)
  {
    SaleIsExact(inv, i, lines);
    forall t | t in inv.counters {
      PostLinesClosed(inv, Sold, OfOrder(i), lines, t);
    }
  }

  /** A capture that takes the ordered units off both counters, no row cut short by a floor. */
  ghost predicate SellsExactly(s: Shop, i: nat)
    requires Valid(s) && i < |s.orders|
  {
    var s' := Apply(s, CaptureReported(i));
    && s'.inventory.ledger == s.inventory.ledger + ExactSale(i, s.orders[i].lines)
    && s'.inventory.counters.Keys == s.inventory.counters.Keys
    && forall t <- s.inventory.counters ::
         var c, d := s.inventory.counters[t], Demand(s.orders[i].lines, t);
         d <= c.reserved && d <= c.stock && s'.inventory.counters[t] == Counter(c.stock - d, c.reserved - d)
  }

  /** A capture meets no floor exactly when all its units are both held and on hand. */
  lemma CaptureMeetsNoFloor(s: Shop, i: nat)
    requires Valid(s) && i < |s.orders| && s.orders[i].status == AwaitingPayment
    ensures SellsExactly(s, i) <==> Covered(s.inventory.counters, s.orders[i].lines)
  {
    CapturePosts(s, i);
    SaleIsExact(s.inventory, i, s.orders[i].lines);
    if Covered(s.inventory.counters, s.orders[i].lines) {
      SaleTakesItsUnits(s.inventory, i, s.orders[i].lines);
    }
  }

  /** In a shop where nothing is short and everything held is on hand, a capture is exact. */
  lemma CaptureIsExact(s: Shop, i: nat)
    requires Booked(s) && NeverShort(s) && Backed(s)
    requires i < |s.orders| && s.orders[i].status == AwaitingPayment
    ensures SellsExactly(s, i)
  {
    HeldForOrder(s, i);
    CaptureMeetsNoFloor(s, i);
  }
}
