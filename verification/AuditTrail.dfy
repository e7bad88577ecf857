/**
 The audit trail, and what it proves about every order.

 In every run the history rows of an order form a connected path, using only
 edges of the transition relation below, from `AwaitingPayment` to its current
 status; and the stock ledger shows that its lines were sold at most once and
 put back at most once, only after the sale.
 */
module AuditTrail {
  import opened Wrappers
  import opened Stock
  import opened Orders

  /** A connected chain of rows with no self-loops. */
  predicate Path<T(==)>(h: seq<Edge<T>>, from: T, to: T) {
    if h == [] then from == to
    else
      var last := h[|h| - 1];
      last.after == to && last.before != to && Path(h[..|h| - 1], from, last.before)
  }

  /** The edges an order can take. Expired orders leave only through a refund. */
  predicate Legal(e: Edge<Status>) {
    var refund := e.after == Refunded || e.after == PartiallyRefunded;
    var shipped := e.after == Shipped || e.after == Delivered;
    match e.before
    case AwaitingPayment =>
      refund || e.after == PaymentConfirmed || e.after == PaymentFailed || e.after == Expired || e.after == Cancelled
    case PaymentFailed => refund || e.after == AwaitingPayment || e.after == Cancelled
    case Expired => refund
    case PaymentConfirmed => refund || shipped || e.after == Accepted || e.after == Cancelled
    case Accepted => refund || shipped || e.after == Packed || e.after == Cancelled
    case Packed => refund || shipped || e.after == Cancelled
    case _ => refund || shipped
  }

  /** What holds of one order in every reachable shop. */
  ghost predicate Tracked(o: Order) {
    && Path(o.history, AwaitingPayment, o.status)
    && (forall e <- o.history :: Legal(e))
    && (o.status.Paid() ==> WasConfirmed(o))
    && (WasConfirmed(o) ==> !o.status.AwaitingPayment? && !o.status.PaymentFailed? && !o.status.Expired?)
    && (WasRestored(o) ==> WasConfirmed(o) && !o.status.Cancellable())
    && (o.shipment.Some? ==> WasConfirmed(o) && Path(o.shipment.value.history, Pending, o.shipment.value.status))
  }

  /** The ledger rows order `i` has left: its lines once per sale and once per restoration, if any. */
  ghost predicate RowsMatch(ledger: seq<Movement>, i: nat, o: Order) {
    && OrderRows(ledger, i, Sold) == (if WasConfirmed(o) then LineTargets(o.lines) else [])
    && OrderRows(ledger, i, Restored) == (if WasRestored(o) then LineTargets(o.lines) else [])
  }

  ghost predicate NoRowsYet(ledger: seq<Movement>, i: nat) {
    OrderRows(ledger, i, Sold) == [] == OrderRows(ledger, i, Restored)
  }

  ghost predicate Booked(s: Shop) {
    && Valid(s)
    && (forall i | 0 <= i < |s.orders| :: Tracked(s.orders[i]) && RowsMatch(s.inventory.ledger, i, s.orders[i]))
    && (forall i: nat | i >= |s.orders| :: NoRowsYet(s.inventory.ledger, i))
  }

  /** Setting a status along a legal edge appends one connected row, or none. */
  lemma SetStatusFlags(o: Order, to: Status)
    requires Path(o.history, AwaitingPayment, o.status) && forall e <- o.history :: Legal(e)
    requires o.status == to || Legal(Edge(o.status, to))
    ensures var o' := SetStatus(o, to);
            && o'.status == to && o'.lines == o.lines && o'.shipment == o.shipment
            && Path(o'.history, AwaitingPayment, to)
            && (forall e <- o'.history :: Legal(e))
            && (WasConfirmed(o') <==> WasConfirmed(o) || (o.status != to && to == PaymentConfirmed))
            && (WasRestored(o') <==> WasRestored(o) || (o.status.Paid() && to == Cancelled))
  {
  }

  lemma StatusTracked(o: Order, to: Status)
    requires Tracked(o)
    requires o.status == to || Legal(Edge(o.status, to))
    requires to.Paid() && to != PaymentConfirmed ==> WasConfirmed(o)
    ensures Tracked(SetStatus(o, to))
  {
    SetStatusFlags(o, to);
  }

  lemma ShipmentTracked(o: Order, to: ShipmentStatus)
    requires Tracked(o) && o.shipment.Some?
    ensures Tracked(o.(shipment := Some(SetShipment(o.shipment.value, to))))
  {
  }

  lemma TrackedByPayment(o: Order, step: Step, coverable: bool)
    requires Tracked(o)
    requires step.CaptureReported? || step.FailureReported? || step.RefundReported? || step.HoldExpired? || step.Retry?
    ensures Tracked(Decide(o, step, coverable).order)
  {
    StatusTracked(o, Decide(o, step, coverable).order.status);
  }

  lemma TrackedByPeople(o: Order, step: Step, coverable: bool)
    requires Tracked(o) && (step.Cancel? || step.Accept? || step.Pack?)
    ensures Tracked(Decide(o, step, coverable).order)
  {
    StatusTracked(o, Decide(o, step, coverable).order.status);
  }

  lemma TrackedByShipment(o: Order, step: Step, coverable: bool)
    requires Tracked(o) && step.SaveShipment?
    ensures Tracked(Decide(o, step, coverable).order)
  {
    if o.shipment.Some? {
      var saved := o.(shipment := Some(SetShipment(o.shipment.value, step.status)));
      ShipmentTracked(o, step.status);
      var to := OrderStatusFor(step.status);
      if to.Some? && step.seen != to.value {
        StatusTracked(saved, to.value);
      }
    }
  }

  lemma TrackedStep(o: Order, step: Step, coverable: bool)
    requires Tracked(o)
    ensures Tracked(Decide(o, step, coverable).order)
  {
    match step {
      case SaveShipment(_, _, _) => TrackedByShipment(o, step, coverable);
      case Cancel(_, _) => TrackedByPeople(o, step, coverable);
      case Accept(_, _) => TrackedByPeople(o, step, coverable);
      case Pack(_, _) => TrackedByPeople(o, step, coverable);
      case CaptureReported(_) => TrackedByPayment(o, step, coverable);
      case FailureReported(_) => TrackedByPayment(o, step, coverable);
      case RefundReported(_, _) => TrackedByPayment(o, step, coverable);
      case HoldExpired(_) => TrackedByPayment(o, step, coverable);
      case Retry(_) => TrackedByPayment(o, step, coverable);
      case _ =>
    }
  }

  /** The transactions that sell, or put back, the lines of their order. */
  predicate Sells(o: Order, step: Step) {
    step.CaptureReported? && o.status == AwaitingPayment
  }

  predicate PutsBack(o: Order, step: Step) {
    step.Cancel? && step.seen.Cancellable() && o.status.Cancellable() && o.status.Paid()
  }

  /** A transaction only appends to the history, by setting the status, and posts a sale or a restoration to match. */
  lemma DecisionShape(o: Order, step: Step, coverable: bool)
    ensures var d := Decide(o, step, coverable);
            && d.order.lines == o.lines
            && d.order.history == SetStatus(o, d.order.status).history
            && (d.kind.Some? ==> !d.kind.value.External())
            && (d.kind == Some(Sold) <==> Sells(o, step))
            && (d.kind == Some(Restored) <==> PutsBack(o, step))
  {
  }

  lemma DecisionMoves(o: Order, step: Step, coverable: bool)
    requires Tracked(o)
    ensures var to := Decide(o, step, coverable).order.status;
            && (o.status == to || Legal(Edge(o.status, to)))
            && (o.status != to && to == PaymentConfirmed <==> Sells(o, step))
            && (o.status.Paid() && to == Cancelled <==> PutsBack(o, step))
  {
  }

  lemma DecisionFlags(o: Order, step: Step, coverable: bool)
    requires Tracked(o)
    ensures var o' := Decide(o, step, coverable).order;
            && (WasConfirmed(o') <==> WasConfirmed(o) || Sells(o, step))
            && (WasRestored(o') <==> WasRestored(o) || PutsBack(o, step))
            && (Sells(o, step) ==> !WasConfirmed(o)) && (PutsBack(o, step) ==> WasConfirmed(o) && !WasRestored(o))
  {
    var o' := Decide(o, step, coverable).order;
    DecisionShape(o, step, coverable);
    DecisionMoves(o, step, coverable);
    SetStatusFlags(o, o'.status);
  }

  lemma RowsStep(s: Shop, step: Step, i: nat, k: Kind)
    requires Valid(s)
    ensures var e := Effect(s, step);
            OrderRows(Apply(s, step).inventory.ledger, i, k) == OrderRows(s.inventory.ledger, i, k)
            + if e.LinesOf? && e.kind == k && e.order == i then LineTargets(e.lines) else []
  {
    match Effect(s, step) {
      case NoPosting =>
      case LinesOf(kind, order, lines) => PostLinesRows(s.inventory, kind, order, lines, i, k);
      case Shelf(kind, source, t, c) => PostRows(s.inventory, kind, source, t, c, i, k);
    }
  }

  /** The order a step is about. */
  lemma BookedOrder(s: Shop, i: nat, step: Step)
    requires Booked(s) && OnAnOrder(step) && step.order == i < |s.orders|
    ensures var s' := Apply(s, step);
            Tracked(s'.orders[i]) && RowsMatch(s'.inventory.ledger, i, s'.orders[i])
  {
    var o := s.orders[i];
    TrackedStep(o, step, Coverable(s.inventory.counters, o.lines));
    OwnRowsMatch(s, i, step);
  }

  lemma OwnRowsMatch(s: Shop, i: nat, step: Step)
    requires Booked(s) && OnAnOrder(step) && step.order == i < |s.orders|
    ensures var o := s.orders[i];
            var o' := Decide(o, step, Coverable(s.inventory.counters, o.lines)).order;
            RowsMatch(Apply(s, step).inventory.ledger, i, o')
  {
    var o := s.orders[i];
    var coverable := Coverable(s.inventory.counters, o.lines);
    assert RowsMatch(s.inventory.ledger, i, o) && Tracked(o);
    KindsAndFlags(o, step, coverable);
    OwnRows(s, i, step, Sold);
    OwnRows(s, i, step, Restored);
    var kind, ledger, ledger' := Decide(o, step, coverable).kind, s.inventory.ledger, Apply(s, step).inventory.ledger;
    RowsOnce(OrderRows(ledger, i, Sold), OrderRows(ledger', i, Sold), LineTargets(o.lines), WasConfirmed(o),
             kind == Some(Sold));
    RowsOnce(OrderRows(ledger, i, Restored), OrderRows(ledger', i, Restored), LineTargets(o.lines), WasRestored(o),
             kind == Some(Restored));
  }

  /** Rows written for the first time are all there is. */
  lemma RowsOnce(before: seq<Target>, after: seq<Target>, rows: seq<Target>, written: bool, writes: bool)
    requires before == (if written then rows else []) && after == before + if writes then rows else []
    requires !(written && writes)
    ensures after == if written || writes then rows else []
  {
  }

  /** An order is sold, or put back, by exactly the steps that show it so for the first time. */
  lemma KindsAndFlags(o: Order, step: Step, coverable: bool)
    requires Tracked(o)
    ensures var d := Decide(o, step, coverable);
            && (WasConfirmed(d.order) <==> WasConfirmed(o) || d.kind == Some(Sold))
            && (WasRestored(d.order) <==> WasRestored(o) || d.kind == Some(Restored))
            && (d.kind == Some(Sold) ==> !WasConfirmed(o)) && (d.kind == Some(Restored) ==> !WasRestored(o))
            && d.order.lines == o.lines
  {
    DecisionShape(o, step, coverable);
    DecisionFlags(o, step, coverable);
  }

  lemma OwnRows(s: Shop, i: nat, step: Step, k: Kind)
    requires Valid(s) && OnAnOrder(step) && step.order == i < |s.orders|
    ensures var o := s.orders[i];
            OrderRows(Apply(s, step).inventory.ledger, i, k) == OrderRows(s.inventory.ledger, i, k)
            + if Decide(o, step, Coverable(s.inventory.counters, o.lines)).kind == Some(k)
              then LineTargets(o.lines) else []
  {
    RowsStep(s, step, i, k);
  }

  /** Every other order, and every order still to come. */
  lemma OtherRows(s: Shop, step: Step, i: nat)
    requires Valid(s) && !(OnAnOrder(step) && step.order == i)
    ensures OrderRows(Apply(s, step).inventory.ledger, i, Sold) == OrderRows(s.inventory.ledger, i, Sold)
    ensures OrderRows(Apply(s, step).inventory.ledger, i, Restored) == OrderRows(s.inventory.ledger, i, Restored)
  {
    RowsStep(s, step, i, Sold);
    RowsStep(s, step, i, Restored);
  }

  lemma BookedOther(s: Shop, step: Step, i: nat)
    requires Booked(s) && !(OnAnOrder(step) && step.order == i)
    ensures var s' := Apply(s, step);
            if i < |s'.orders| then Tracked(s'.orders[i]) && RowsMatch(s'.inventory.ledger, i, s'.orders[i])
            else NoRowsYet(s'.inventory.ledger, i)
  {
    OtherRows(s, step, i);
    if i < |s.orders| {
      assert OrdersAfter(s, step)[i] == s.orders[i];
    } else {
      assert NoRowsYet(s.inventory.ledger, i);
      if i < |OrdersAfter(s, step)| {
        assert OrdersAfter(s, step)[i] == NewOrder(step.lines);
      }
    }
  }

  lemma BookedAt(s: Shop, step: Step, i: nat)
    requires Booked(s)
    ensures var s' := Apply(s, step);
            if i < |s'.orders| then Tracked(s'.orders[i]) && RowsMatch(s'.inventory.ledger, i, s'.orders[i])
            else NoRowsYet(s'.inventory.ledger, i)
  {
    if OnAnOrder(step) && step.order == i {
      if i < |s.orders| {
        BookedOrder(s, i, step);
      } else {
        assert NoRowsYet(s.inventory.ledger, i);
      }
    } else {
      BookedOther(s, step, i);
    }
  }

  lemma BookedStep(s: Shop, step: Step)
    requires Booked(s)
    ensures Booked(Apply(s, step))
  {
    forall i: nat {
      BookedAt(s, step, i);
    }
  }

  /**
   Every reachable shop: whatever events arrive, repeat, race or come late, each
   order's trail is a legal path, and the ledger shows it sold at most once and
   put back at most once.
   */
  lemma {:induction false} EveryRunBooked(counters: Counters, steps: seq<Step>)
    ensures Booked(Run(Opening(counters), steps))
  {
    if steps != [] {
      EveryRunBooked(counters, steps[..|steps| - 1]);
      BookedStep(Run(Opening(counters), steps[..|steps| - 1]), steps[|steps| - 1]);
    }
  }

  lemma {:induction false} BookedRun(s: Shop, steps: seq<Step>)
    requires Booked(s)
    ensures Booked(Run(s, steps))
  {
    if steps != [] {
      BookedRun(s, steps[..|steps| - 1]);
      BookedStep(Run(s, steps[..|steps| - 1]), steps[|steps| - 1]);
    }
  }

  /** An expired order changes status only when a refund is reported for it. */
  lemma ExpiredIsFinal(s: Shop, step: Step, i: nat)
    requires Booked(s) && i < |s.orders| && s.orders[i].status == Expired
    ensures i < |Apply(s, step).orders|
    ensures Apply(s, step).orders[i].status != Expired <==> step.RefundReported? && step.order == i
  {
  }

  predicate OnTheWay(status: ShipmentStatus) {
    status.PickedUp? || status.InTransit? || status.OutForDelivery?
  }

  /**
   What saving a shipment does to its order, told by an up-to-date copy: on the way means shipped,
   handed over means delivered, and anything else leaves the order alone, as it leaves the stock.
   */
  lemma ShipmentDrivesItsOrder(o: Order, i: nat, status: ShipmentStatus, coverable: bool)
    requires Tracked(o) && o.shipment.Some?
    ensures var d := Decide(o, SaveShipment(i, status, o.status), coverable);
            && d.kind.None? && d.order.lines == o.lines
            && d.order.shipment.Some? && d.order.shipment.value.status == status
            && (if OnTheWay(status) then d.order.status == Shipped
                else if status.DroppedOff? then d.order.status == Delivered
                else d.order.history == o.history && d.order.status == o.status)
  {
  }

  /**
   The sync is meant to carry forward progress only. Yet a closed order is moved back into a paid
   status exactly when its shipment is saved on the way or handed over and the order copy behind
   the shipment stands elsewhere.
   */
  lemma ShipmentsReopenOrders(o: Order, i: nat, status: ShipmentStatus, seen: Status, coverable: bool)
    requires Tracked(o) && o.shipment.Some?
    requires o.status == Cancelled || o.status == Refunded || o.status == PartiallyRefunded
    ensures var o' := Decide(o, SaveShipment(i, status, seen), coverable).order;
            && (o'.status != o.status
                <==> (OnTheWay(status) && seen != Shipped) || (status.DroppedOff? && seen != Delivered))
            && (o'.status.Paid() <==> o'.status != o.status)
  {
  }

  // ----- the ledger replays -----

  lemma ReplaysStep(opening: Counters, s: Shop, step: Step)
    requires Valid(s) && Replays(opening, s.inventory)
    ensures Replays(opening, Apply(s, step).inventory)
  {
    match Effect(s, step) {
      case NoPosting =>
      case LinesOf(kind, order, lines) => PostLinesReplays(opening, s.inventory, kind, OfOrder(order), lines);
      case Shelf(kind, source, t, c) => PostReplays(opening, s.inventory, kind, source, t, c);
    }
  }

  /** After every run, each counter is its opening value plus the sums of its own ledger rows. */
  lemma {:induction false} EveryRunReplays(counters: Counters, steps: seq<Step>)
    ensures Replays(counters, Run(Opening(counters), steps).inventory)
  {
    if steps != [] {
      EveryRunReplays(counters, steps[..|steps| - 1]);
      ReplaysStep(counters, Run(Opening(counters), steps[..|steps| - 1]), steps[|steps| - 1]);
    }
  }
}
