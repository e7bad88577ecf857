/**
 The order lifecycle as one transition system.

 `Apply` gives every transaction that moves an order or the stock, as a step on
 the whole shop. Callers that check before they lock carry the status they saw
 (`seen`), which may be out of date; the check under the lock uses the order row.
 `Run` composes steps in any order and number, so duplicated, late and reordered
 events are all runs.
 */
module Orders {
  import opened Wrappers
  import opened Stock

  datatype Status =
    | AwaitingPayment | PaymentConfirmed | PaymentFailed | Expired
    | Accepted | Packed | Shipped | Delivered
    | Cancelled | Refunded | PartiallyRefunded
  {
    /** `CANCELLABLE_STATUSES` */
    predicate Cancellable() {
      AwaitingPayment? || PaymentFailed? || PaymentConfirmed? || Accepted? || Packed?
    }

    /** `PAID_STATUSES` */
    predicate Paid() {
      PaymentConfirmed? || Accepted? || Packed? || Shipped? || Delivered?
    }
  }

  /** What a buyer or the shop can still call off: not what has left it, been closed, or lost its hold to expiry. */
  predicate MayBeCancelled(status: Status) {
    && status != Expired && status != Shipped && status != Delivered
    && status != Cancelled && status != Refunded && status != PartiallyRefunded
  }

  datatype ShipmentStatus =
    | Pending | PickedUp | InTransit | OutForDelivery | DroppedOff | NotDelivered | SentBack | CalledOff

  /** One audit-trail row. */
  datatype Edge<T> = Edge(before: T, after: T)

  datatype Shipment = Shipment(status: ShipmentStatus, history: seq<Edge<ShipmentStatus>>)

  datatype Order = Order(lines: seq<Line>, status: Status, history: seq<Edge<Status>>, shipment: Option<Shipment>)

  datatype Shop = Shop(inventory: Inventory, orders: seq<Order>)

  datatype Step =
    | Checkout(lines: seq<Line>)
    | Retry(order: nat)
    | CaptureReported(order: nat)
    | OpenShipment(order: nat)
    | FailureReported(order: nat)
    | RefundReported(order: nat, full: bool)
    | HoldExpired(order: nat)
    | Cancel(order: nat, seen: Status)
    | Accept(order: nat, seen: Status)
    | Pack(order: nat, seen: Status)
    | SaveShipment(order: nat, status: ShipmentStatus, seen: Status)
    | Restock(target: Target, quantity: int, purchase: Option<nat>)
    | TakeBack(target: Target, quantity: int, request: nat)
    | Correct(target: Target, delta: int)

  /** Every line of every order points at an existing counter. */
  predicate Valid(s: Shop) {
    forall o <- s.orders :: Known(s.inventory.counters, o.lines)
  }

  /** Saving an order writes an audit row exactly when the stored status changes. */
  function SetStatus(o: Order, to: Status): Order {
    if o.status == to then o else o.(status := to, history := o.history + [Edge(o.status, to)])
  }

  function SetShipment(x: Shipment, to: ShipmentStatus): Shipment {
    if x.status == to then x else Shipment(to, x.history + [Edge(x.status, to)])
  }

  function OrderStatusFor(status: ShipmentStatus): Option<Status> {
    match status
    case PickedUp | InTransit | OutForDelivery => Some(Shipped)
    case DroppedOff => Some(Delivered)
    case _ => None
  }

  predicate WasConfirmed(o: Order) {
    exists e <- o.history :: e.after == PaymentConfirmed
  }

  /** A cancellation took the order out of a paid status. */
  predicate WasRestored(o: Order) {
    exists e <- o.history :: e.before.Paid() && e.after == Cancelled
  }

  function NewOrder(lines: seq<Line>): Order {
    Order(lines, AwaitingPayment, [], None)
  }

  // ----- one order -----

  predicate OnAnOrder(step: Step) {
    !(step.Checkout? || step.Restock? || step.TakeBack? || step.Correct?)
  }

  /** What a transaction does with the stock its order's lines name, and the order row it leaves. */
  datatype Decision = Decision(kind: Option<Kind>, order: Order)

  /** The checks of every transaction on one order; `coverable` says whether its lines could be reserved now. */
  function Decide(o: Order, step: Step, coverable: bool): Decision {
    var refuse := Decision(None, o);
    match step
    case Retry(_) =>
      if o.status == PaymentFailed && coverable then Decision(Some(Reserved), SetStatus(o, AwaitingPayment)) else refuse
    case CaptureReported(_) =>
      if o.status == AwaitingPayment then Decision(Some(Sold), SetStatus(o, PaymentConfirmed)) else refuse
    case OpenShipment(_) =>
      // the tail of the capture pipeline, so only ever reached for a confirmed order
      if WasConfirmed(o) && o.shipment.None? then Decision(None, o.(shipment := Some(Shipment(Pending, []))))
      else refuse
    case FailureReported(_) =>
      if o.status == AwaitingPayment then Decision(Some(Released), SetStatus(o, PaymentFailed)) else refuse
    case RefundReported(_, full) =>
      Decision(None, SetStatus(o, if full then Refunded else PartiallyRefunded))
    case HoldExpired(_) =>
      if o.status == AwaitingPayment then Decision(Some(Released), SetStatus(o, Expired)) else refuse
    case Cancel(_, seen) =>
      if seen.Cancellable() && o.status.Cancellable()
      then Decision(Some(if o.status.Paid() then Restored else Released), SetStatus(o, Cancelled)) else refuse
    case Accept(_, seen) =>
      if seen == PaymentConfirmed && o.status == PaymentConfirmed then Decision(None, SetStatus(o, Accepted))
      else refuse
    case Pack(_, seen) =>
      if seen == Accepted && o.status == Accepted then Decision(None, SetStatus(o, Packed)) else refuse
    case SaveShipment(_, status, seen) =>
      if o.shipment.None? then refuse
      else
        var saved := o.(shipment := Some(SetShipment(o.shipment.value, status)));
        var to := OrderStatusFor(status);
        // the order copy behind the shipment decides, and nothing is re-checked under a lock
        Decision(None, if to.Some? && seen != to.value then SetStatus(saved, to.value) else saved)
    case _ => refuse
  }

  // ----- the whole shop -----

  /** The soft check on the cart, made before any transaction. */
  predicate OutOfStock(counters: Counters, lines: seq<Line>)
    requires Known(counters, lines)
  {
    exists l <- lines :: l.Target().Some? && l.quantity > counters[l.Target().value].Available()
  }

  /** A checkout goes through: a cart, of known items, past the soft check and past the reservation. */
  predicate Places(s: Shop, lines: seq<Line>) {
    && lines != [] && Known(s.inventory.counters, lines)
    && !OutOfStock(s.inventory.counters, lines) && Coverable(s.inventory.counters, lines)
  }

  /** The one change, if any, that a step makes to the stock. */
  datatype Posting =
    | NoPosting
    | LinesOf(kind: Kind, order: nat, lines: seq<Line>)
    | Shelf(kind: Kind, source: Source, target: Target, counter: Counter)

  function Posted(inv: Inventory, p: Posting): (r: Inventory)
    requires p.LinesOf? ==> Known(inv.counters, p.lines)
    requires p.Shelf? ==> p.target in inv.counters
    ensures r.counters.Keys == inv.counters.Keys
  {
    match p
    case NoPosting => inv
    case LinesOf(kind, order, lines) => PostLines(inv, kind, OfOrder(order), lines)
    case Shelf(kind, source, t, c) => Post(inv, kind, source, t, c)
  }

  function Effect(s: Shop, step: Step): (p: Posting)
    requires Valid(s)
    ensures p.LinesOf? ==> Known(s.inventory.counters, p.lines)
    ensures p.Shelf? ==> p.target in s.inventory.counters && !p.source.OfOrder?
                         && p.kind.External()
                         && p.counter.reserved == s.inventory.counters[p.target].reserved
  {
    match step
    case Checkout(lines) =>
      if Places(s, lines) then LinesOf(Reserved, |s.orders|, lines) else NoPosting
    case Restock(t, q, po) =>
      if q <= 0 || t !in s.inventory.counters then NoPosting
      else Shelf(Restocked, if po.Some? then OfPurchase(po.value) else Manual, t,
                 Moved(Restocked, s.inventory.counters[t], q))
    case TakeBack(t, q, request) =>
      if q <= 0 || t !in s.inventory.counters then NoPosting
      else Shelf(Returned, OfReturn(request), t, Moved(Returned, s.inventory.counters[t], q))
    case Correct(t, delta) =>
      if delta == 0 || t !in s.inventory.counters then NoPosting
      else Shelf(Adjusted, Manual, t,
                 s.inventory.counters[t].(stock := Max(s.inventory.counters[t].stock + delta, 0)))
    case _ =>
      if step.order >= |s.orders| then NoPosting
      else
        var o := s.orders[step.order];
        assert o in s.orders;
        var kind := Decide(o, step, Coverable(s.inventory.counters, o.lines)).kind;
        if kind.None? then NoPosting else LinesOf(kind.value, step.order, o.lines)
  }

  /** Order rows are only ever added, and a step rewrites one at most. */
  function OrdersAfter(s: Shop, step: Step): seq<Order> {
    if step.Checkout? then (if Places(s, step.lines) then s.orders + [NewOrder(step.lines)] else s.orders)
    else if OnAnOrder(step) && step.order < |s.orders| then
      var o := s.orders[step.order];
      s.orders[step.order := Decide(o, step, Coverable(s.inventory.counters, o.lines)).order]
    else s.orders
  }

  function Apply(s: Shop, step: Step): (r: Shop)
    requires Valid(s)
    ensures r.inventory.counters.Keys == s.inventory.counters.Keys
    ensures Valid(r) && |s.orders| <= |r.orders|
  {
    var r := Shop(Posted(s.inventory, Effect(s, step)), OrdersAfter(s, step));
    assert forall o <- r.orders :: Known(s.inventory.counters, o.lines) by { LinesKept(s, step); }
    r
  }

  /** The three ways stock moves without an order are the stock service's own. */
  lemma ShelfStepsAreTheService(s: Shop, t: Target, quantity: int, purchase: Option<nat>, request: nat)
    requires Valid(s)
    ensures Apply(s, Correct(t, quantity)) == s.(inventory := Adjust(s.inventory, t, quantity))
    ensures Apply(s, TakeBack(t, quantity, request))
            == s.(inventory := PutAway(s.inventory, Returned, OfReturn(request), t, quantity))
    ensures Apply(s, Restock(t, quantity, purchase))
            == s.(inventory := PutAway(s.inventory, Restocked,
                                       if purchase.Some? then OfPurchase(purchase.value) else Manual, t, quantity))
  {
  }

  /** No transaction edits the lines of an order. */
  lemma LinesKept(s: Shop, step: Step)
    requires Valid(s)
    ensures |s.orders| <= |OrdersAfter(s, step)| <= |s.orders| + 1
    ensures forall i | 0 <= i < |s.orders| :: OrdersAfter(s, step)[i].lines == s.orders[i].lines
    ensures forall o <- OrdersAfter(s, step) :: Known(s.inventory.counters, o.lines)
  {
  }

  /** An order after a step: decided on, if the step is on it, as before otherwise, or new. */
  lemma OrderStep(s: Shop, step: Step, i: nat)
    requires Valid(s)
    ensures var orders := Apply(s, step).orders;
            if i < |s.orders| then
              && i < |orders|
              && orders[i] == if OnAnOrder(step) && step.order == i
                              then Decide(s.orders[i], step, Coverable(s.inventory.counters, s.orders[i].lines)).order
                              else s.orders[i]
            else i < |orders| ==> step.Checkout? && orders[i] == Order(step.lines, AwaitingPayment, [], None)
  {
  }

  /** The soft check never turns away a cart that the reservation itself would cover. */
  lemma SoftCheckIsRedundant(counters: Counters, lines: seq<Line>)
    requires Known(counters, lines) && Coverable(counters, lines)
    ensures !OutOfStock(counters, lines)
  {
    forall l | l in lines && l.Target().Some?
      ensures l.quantity <= counters[l.Target().value].Available()
    {
      DemandCovers(lines, l);
    }
  }

  lemma {:induction false} DemandCovers(lines: seq<Line>, l: Line)
    requires l in lines && l.Target().Some?
    ensures l.quantity <= Demand(lines, l.Target().value)
  {
    var n := |lines| - 1;
    if lines[n] != l {
      DemandCovers(lines[..n], l);
    }
  }

  // ----- runs -----

  function Run(s: Shop, steps: seq<Step>): (r: Shop)
    requires Valid(s)
    ensures Valid(r) && r.inventory.counters.Keys == s.inventory.counters.Keys && |s.orders| <= |r.orders|
  {
    if steps == [] then s else Apply(Run(s, steps[..|steps| - 1]), steps[|steps| - 1])
  }

  lemma RunOneMore(s: Shop, steps: seq<Step>, step: Step)
    requires Valid(s)
    ensures Run(s, steps + [step]) == Apply(Run(s, steps), step)
  {
  }

  lemma {:induction false} RunConcat(s: Shop, a: seq<Step>, b: seq<Step>)
    requires Valid(s)
    ensures Run(s, a + b) == Run(Run(s, a), b)
  {
    if b == [] {
      assert a + b == a;
    } else {
      var front, last := b[..|b| - 1], b[|b| - 1];
      LastApart(a, b);
      RunConcat(s, a, front);
      RunBothOneMore(s, a, front, last);
    }
  }

  lemma LastApart(a: seq<Step>, b: seq<Step>)
    requires b != []
    ensures b == b[..|b| - 1] + [b[|b| - 1]] && a + b == a + b[..|b| - 1] + [b[|b| - 1]]
  {
  }

  lemma RunBothOneMore(s: Shop, a: seq<Step>, b: seq<Step>, last: Step)
    requires Valid(s) && Run(s, a + b) == Run(Run(s, a), b)
    ensures Run(s, a + b + [last]) == Run(Run(s, a), b + [last])
  {
    RunOneMore(s, a + b, last);
    RunOneMore(Run(s, a), b, last);
  }

  function Opening(counters: Counters): Shop {
    Shop(Inventory(counters, []), [])
  }

  /** Two ways an order can have a claim on units of a target. */
  datatype Claim = OnHold | WithBuyer

  /** Unpaid orders are entitled to a hold; a sold order that no cancellation put back has its units. */
  function UnitsOf(c: Claim, o: Order, t: Target): nat {
    var entitled := match c
      case OnHold => o.status == AwaitingPayment
      case WithBuyer => WasConfirmed(o) && !WasRestored(o);
    if entitled then Demand(o.lines, t) else 0
  }

  function Units(c: Claim, orders: seq<Order>, t: Target): nat {
    if orders == [] then 0
    else Units(c, orders[..|orders| - 1], t) + UnitsOf(c, orders[|orders| - 1], t)
  }
}
