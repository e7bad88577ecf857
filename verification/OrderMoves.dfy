/**
 Which transaction moves an order where.

 Statuses spell out the order lifecycle: for each of them, the one transaction
 that leads into it and the guard it has to pass. Over whole runs, an order that
 counts as shipped or delivered has a shipment that was on the way or handed over.
 */
module OrderMoves {
  import opened Wrappers
  import opened Stock
  import opened Orders
  import opened AuditTrail

  predicate Becomes(o: Order, o': Order, to: Status) {
    o.status != to && o'.status == to
  }

  /** The status a saved shipment asks for, and the order copy behind it does not yet show. */
  predicate Suggests(step: Step, onTheWay: bool) {
    && step.SaveShipment?
    && if onTheWay then OnTheWay(step.status) && step.seen != Shipped
       else step.status == DroppedOff && step.seen != Delivered
  }

  /** The guard on the way into each status, for a step on the order. */
  predicate Leads(o: Order, step: Step, coverable: bool, to: Status) {
    match to
    case AwaitingPayment => step.Retry? && o.status == PaymentFailed && coverable
    case PaymentConfirmed => step.CaptureReported? && o.status == AwaitingPayment
    case PaymentFailed => step.FailureReported? && o.status == AwaitingPayment
    case Expired => step.HoldExpired? && o.status == AwaitingPayment
    case Accepted => step.Accept? && step.seen == PaymentConfirmed && o.status == PaymentConfirmed
    case Packed => step.Pack? && step.seen == Accepted && o.status == Accepted
    case Shipped => o.status != Shipped && o.shipment.Some? && Suggests(step, true)
    case Delivered => o.status != Delivered && o.shipment.Some? && Suggests(step, false)
    case Cancelled => step.Cancel? && MayBeCancelled(step.seen) && MayBeCancelled(o.status)
    case Refunded => o.status != Refunded && step.RefundReported? && step.full
    case PartiallyRefunded => o.status != PartiallyRefunded && step.RefundReported? && !step.full
  }

  lemma LeadsThere(o: Order, step: Step, coverable: bool, to: Status)
    ensures Becomes(o, Decide(o, step, coverable).order, to) <==> Leads(o, step, coverable, to)
  {
  }

  /** What each of these moves does with the order's stock, and that nothing else touches it. */
  lemma StockFollowsTheOrder(o: Order, step: Step, coverable: bool)
    ensures var kind := Decide(o, step, coverable).kind;
            var unpaid := o.status == AwaitingPayment || o.status == PaymentFailed;
            && (kind == Some(Reserved) <==> Leads(o, step, coverable, AwaitingPayment))
            && (kind == Some(Sold) <==> Leads(o, step, coverable, PaymentConfirmed))
            && (kind == Some(Released) <==>
                  || Leads(o, step, coverable, PaymentFailed) || Leads(o, step, coverable, Expired)
                  || (Leads(o, step, coverable, Cancelled) && unpaid))
            && (kind == Some(Restored) <==> Leads(o, step, coverable, Cancelled) && !unpaid)
            && kind != Some(Restocked) && kind != Some(Returned) && kind != Some(Adjusted)
  {
  }

  /** The rows this leaves: the order's own lines once per such move, under its own number, and no other order's. */
  lemma RowsFollowTheOrder(s: Shop, step: Step, i: nat, kind: Kind)
    requires Valid(s) && i < |s.orders|
    ensures var o := s.orders[i];
            OrderRows(Apply(s, step).inventory.ledger, i, kind) == OrderRows(s.inventory.ledger, i, kind)
            + if OnAnOrder(step) && step.order == i
                 && Decide(o, step, Coverable(s.inventory.counters, o.lines)).kind == Some(kind)
              then LineTargets(o.lines) else []
  {
    RowsStep(s, step, i, kind);
    if OnAnOrder(step) && step.order == i {
      OwnRows(s, i, step, kind);
    }
  }

  /** A new order's rows are those of its hold, if it was placed. */
  lemma RowsOfANewOrder(s: Shop, step: Step, kind: Kind)
    requires Valid(s)
    ensures OrderRows(Apply(s, step).inventory.ledger, |s.orders|, kind)
            == OrderRows(s.inventory.ledger, |s.orders|, kind)
               + if |Apply(s, step).orders| > |s.orders| && kind == Reserved
                 then LineTargets(Apply(s, step).orders[|s.orders|].lines) else []
  {
    RowsStep(s, step, |s.orders|, kind);
    OrderStep(s, step, |s.orders|);
  }

  /** For every step, order and status: the order newly stands there exactly if that transaction passes its guard. */
  lemma EveryMoveHasItsCause(s: Shop, step: Step, i: nat, to: Status)
    requires Valid(s) && i < |s.orders|
    ensures i < |Apply(s, step).orders|
    ensures Becomes(s.orders[i], Apply(s, step).orders[i], to)
            <==> OnAnOrder(step) && step.order == i
                 && Leads(s.orders[i], step, Coverable(s.inventory.counters, s.orders[i].lines), to)
  {
    OrderStep(s, step, i);
    LeadsThere(s.orders[i], step, Coverable(s.inventory.counters, s.orders[i].lines), to);
  }

  // ----- nothing is shipped without a shipment -----

  predicate Reached(x: Shipment, onTheWay: bool) {
    exists e <- x.history :: if onTheWay then OnTheWay(e.after) else e.after == DroppedOff
  }

  /** An order that says shipped, or delivered, has a shipment that once said so too. */
  ghost predicate Travelled(o: Order) {
    && (o.status == Shipped ==> o.shipment.Some? && Reached(o.shipment.value, true))
    && (o.status == Delivered ==> o.shipment.Some? && Reached(o.shipment.value, false))
  }

  lemma SavedReaches(x: Shipment, to: ShipmentStatus, onTheWay: bool)
    requires Path(x.history, Pending, x.status)
    ensures Reached(x, onTheWay) ==> Reached(SetShipment(x, to), onTheWay)
    ensures (if onTheWay then OnTheWay(to) else to == DroppedOff) ==> Reached(SetShipment(x, to), onTheWay)
  {
    var x' := SetShipment(x, to);
    if x.history != [] {
      assert x.history[|x.history| - 1] in x'.history;
    }
    assert forall e <- x.history :: e in x'.history;
    assert x.status != to ==> Edge(x.status, to) in x'.history;
  }

  lemma TravelledDecision(o: Order, step: Step, coverable: bool)
    requires Tracked(o) && Travelled(o)
    ensures Travelled(Decide(o, step, coverable).order)
  {
    LeadsThere(o, step, coverable, Shipped);
    LeadsThere(o, step, coverable, Delivered);
    if step.SaveShipment? && o.shipment.Some? {
      SavedReaches(o.shipment.value, step.status, true);
      SavedReaches(o.shipment.value, step.status, false);
    }
  }

  lemma TravelledStep(s: Shop, step: Step)
    requires Booked(s) && forall o <- s.orders :: Travelled(o)
    ensures forall o <- Apply(s, step).orders :: Travelled(o)
  {
    var orders := Apply(s, step).orders;
    forall i | 0 <= i < |orders|
      ensures Travelled(orders[i])
    {
      TravelledAt(s, step, i);
    }
  }

  lemma TravelledAt(s: Shop, step: Step, i: nat)
    requires Booked(s) && i < |Apply(s, step).orders| && (i < |s.orders| ==> Travelled(s.orders[i]))
    ensures Travelled(Apply(s, step).orders[i])
  {
    OrderStep(s, step, i);
    if i < |s.orders| {
      TravelledDecision(s.orders[i], step, Coverable(s.inventory.counters, s.orders[i].lines));
    }
  }

  /** In every reachable shop, whatever was refunded, cancelled or reopened on the way. */
  lemma {:induction false} EveryRunTravelled(counters: Counters, steps: seq<Step>)
    ensures forall o <- Run(Opening(counters), steps).orders :: Travelled(o)
  {
    if steps != [] {
      var front := steps[..|steps| - 1];
      EveryRunTravelled(counters, front);
      EveryRunBooked(counters, front);
      TravelledStep(Run(Opening(counters), front), steps[|steps| - 1]);
    }
  }
}
