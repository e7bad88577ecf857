/**
 The running shop: order rows updated in place over the stock service.

 Each method is one service function, view or task, with its own checks, and
 its contract equates the new shop with the steps of the module `Orders`, for
 which the whole-run theorems are proved. A method refuses by returning false
 where the service raises or returns early.
 */
module Store {
  import opened Wrappers
  import opened Stock
  import opened Orders
  import Room = StockRoom

  /** Which orders the two sweeps move: the expiry sweep unpaid ones, the stale sweep any that can be cancelled. */
  predicate Due(status: Status, to: Status) {
    if to == Expired then status == AwaitingPayment else status.Cancellable()
  }

  /** How many of the orders found a sweep to `to` will move. */
  function CountIn(orders: seq<Order>, found: seq<nat>, to: Status): nat
    requires forall k | 0 <= k < |found| :: found[k] < |orders|
  {
    if found == [] then 0
    else
      var n := |found| - 1;
      CountIn(orders, found[..n], to) + if Due(orders[found[n]].status, to) then 1 else 0
  }

  /** The places in `found` of orders still unpaid, and of orders that can still be cancelled. */
  ghost function Unpaid(orders: seq<Order>, found: seq<nat>): set<nat>
    requires forall k | 0 <= k < |found| :: found[k] < |orders|
  {
    set k: nat | k < |found| && orders[found[k]].status == AwaitingPayment
  }

  ghost function StillOpen(orders: seq<Order>, found: seq<nat>): set<nat>
    requires forall k | 0 <= k < |found| :: found[k] < |orders|
  {
    set k: nat | k < |found| && MayBeCancelled(orders[found[k]].status)
  }

  lemma OneMorePlace(before: set<nat>, after: set<nat>, n: nat, hit: bool)
    requires n !in before && forall k :: k in after <==> k in before || (hit && k == n)
    ensures |after| == |before| + if hit then 1 else 0
  {
    assert after == before + if hit then {n} else {};
  }

  lemma {:induction false} CountsTheUnpaid(orders: seq<Order>, found: seq<nat>)
    requires forall k | 0 <= k < |found| :: found[k] < |orders|
    ensures CountIn(orders, found, Expired) == |Unpaid(orders, found)|
  {
    if found != [] {
      var n := |found| - 1;
      CountsTheUnpaid(orders, found[..n]);
      OneMorePlace(Unpaid(orders, found[..n]), Unpaid(orders, found), n, Due(orders[found[n]].status, Expired));
    }
  }

  lemma {:induction false} CountsTheOpen(orders: seq<Order>, found: seq<nat>)
    requires forall k | 0 <= k < |found| :: found[k] < |orders|
    ensures CountIn(orders, found, Cancelled) == |StillOpen(orders, found)|
  {
    if found != [] {
      var n := |found| - 1;
      CountsTheOpen(orders, found[..n]);
      OneMorePlace(StillOpen(orders, found[..n]), StillOpen(orders, found), n, Due(orders[found[n]].status, Cancelled));
    }
  }

  /** The sweeps, as runs: one step for each order found, in the order found. */
  function Expiries(found: seq<nat>): seq<Step> {
    if found == [] then [] else Expiries(found[..|found| - 1]) + [HoldExpired(found[|found| - 1])]
  }

  function Cancellations(found: seq<nat>, seen: seq<Status>): seq<Step>
    requires |found| == |seen|
  {
    if found == [] then []
    else
      var n := |found| - 1;
      Cancellations(found[..n], seen[..n]) + [Cancel(found[n], seen[n])]
  }

  lemma ExpiriesOneMore(s: Shop, found: seq<nat>, n: nat)
    requires Orders.Valid(s) && n < |found|
    ensures Run(s, Expiries(found[..n + 1])) == Apply(Run(s, Expiries(found[..n])), HoldExpired(found[n]))
  {
    assert found[..n + 1][..n] == found[..n];
    RunOneMore(s, Expiries(found[..n]), HoldExpired(found[n]));
  }

  lemma CancellationsOneMore(s: Shop, found: seq<nat>, seen: seq<Status>, n: nat)
    requires Orders.Valid(s) && n < |found| == |seen|
    ensures Run(s, Cancellations(found[..n + 1], seen[..n + 1]))
            == Apply(Run(s, Cancellations(found[..n], seen[..n])), Cancel(found[n], seen[n]))
  {
    assert found[..n + 1][..n] == found[..n] && seen[..n + 1][..n] == seen[..n];
    RunOneMore(s, Cancellations(found[..n], seen[..n]), Cancel(found[n], seen[n]));
  }

  predicate Distinct(found: seq<nat>) {
    forall j, k | 0 <= j < k < |found| :: found[j] != found[k]
  }

  /** The order rows after a sweep that moves those of the `found` orders that are due. */
  ghost predicate Swept(before: seq<Order>, after: seq<Order>, found: seq<nat>, to: Status) {
    && |after| == |before|
    && forall i | 0 <= i < |before| ::
         after[i] == if i in found && Due(before[i].status, to) then SetStatus(before[i], to) else before[i]
  }

  lemma SweptStatuses(before: seq<Order>, after: seq<Order>, found: seq<nat>)
    requires Swept(before, after, found, Cancelled)
    ensures forall i | 0 <= i < |after| ::
              after[i].status == if i in found && MayBeCancelled(before[i].status) then Cancelled else before[i].status
  {
  }

  lemma NextFound(before: seq<Order>, now: seq<Order>, found: seq<nat>, n: nat, to: Status)
    requires n < |found| && Distinct(found) && forall k | 0 <= k < |found| :: found[k] < |before|
    requires Swept(before, now, found[..n], to)
    ensures now[found[n]] == before[found[n]]
    ensures CountIn(before, found[..n + 1], to)
            == CountIn(before, found[..n], to) + if Due(now[found[n]].status, to) then 1 else 0
  {
    assert found[n] !in found[..n];
    assert found[..n + 1][..n] == found[..n];
  }

  lemma SweptNext(before: seq<Order>, now: seq<Order>, found: seq<nat>, to: Status)
    requires found != [] && Distinct(found) && forall k | 0 <= k < |found| :: found[k] < |before|
    requires Swept(before, now, found[..|found| - 1], to)
    ensures var i := found[|found| - 1];
            Swept(before, if Due(now[i].status, to) then now[i := SetStatus(now[i], to)] else now, found, to)
  {
  }

  /** A cancellation that goes through, on the stock and the order row. */
  lemma CancelStep(s: Shop, i: nat, seen: Status)
    requires Orders.Valid(s) && i < |s.orders| && seen.Cancellable() && s.orders[i].status.Cancellable()
    ensures s.orders[i] in s.orders
    ensures var o := s.orders[i];
            Apply(s, Cancel(i, seen))
            == Shop(PostLines(s.inventory, if o.status.Paid() then Restored else Released, OfOrder(i), o.lines),
                    s.orders[i := SetStatus(o, Cancelled)])
  {
  }

  /** One step of either sweep, on the order rows. */
  lemma SweepStep(s: Shop, i: nat, step: Step, to: Status)
    requires Orders.Valid(s) && i < |s.orders|
    requires (step == HoldExpired(i) && to == Expired)
             || (to == Cancelled && step.Cancel? && step.order == i && step.seen.Cancellable())
    ensures Apply(s, step).orders
            == if Due(s.orders[i].status, to) then s.orders[i := SetStatus(s.orders[i], to)] else s.orders
  {
  }

  lemma {:induction false} ExpirySweep(was: Shop, found: seq<nat>)
    requires Orders.Valid(was) && Distinct(found) && forall k | 0 <= k < |found| :: found[k] < |was.orders|
    ensures Swept(was.orders, Run(was, Expiries(found)).orders, found, Expired)
  {
    if found != [] {
      var n := |found| - 1;
      var mid := Run(was, Expiries(found[..n]));
      ExpirySweep(was, found[..n]);
      SweepStep(mid, found[n], HoldExpired(found[n]), Expired);
      SweptNext(was.orders, mid.orders, found, Expired);
      RunOneMore(was, Expiries(found[..n]), HoldExpired(found[n]));
    }
  }

  /** Whatever the sweep's query saw, an order is skipped exactly when it cannot be cancelled any more. */
  lemma {:induction false} CancellationSweep(was: Shop, found: seq<nat>, seen: seq<Status>)
    requires Orders.Valid(was) && Distinct(found) && forall k | 0 <= k < |found| :: found[k] < |was.orders|
    requires |found| == |seen| && forall k | 0 <= k < |seen| :: seen[k] == AwaitingPayment || seen[k] == PaymentFailed
    ensures Swept(was.orders, Run(was, Cancellations(found, seen)).orders, found, Cancelled)
  {
    if found != [] {
      var n := |found| - 1;
      var mid := Run(was, Cancellations(found[..n], seen[..n]));
      CancellationSweep(was, found[..n], seen[..n]);
      SweepStep(mid, found[n], Cancel(found[n], seen[n]), Cancelled);
      SweptNext(was.orders, mid.orders, found, Cancelled);
      RunOneMore(was, Cancellations(found[..n], seen[..n]), Cancel(found[n], seen[n]));
    }
  }

  class Store {
    const room: Room.StockRoom
    var orders: seq<Order>

    function Snapshot(): Shop
      reads this, room
    {
      Shop(room.Snapshot(), orders)
    }

    predicate Valid()
      reads this, room
    {
      Orders.Valid(Snapshot())
    }

    constructor (opening: Counters)
      ensures Valid() && Snapshot() == Opening(opening)
      ensures fresh(room)
    {
      room := new Room.StockRoom(opening);
      orders := [];
    }

    // ----- checkout and retry -----

    /** The soft stock check first, then one transaction around the order row and its reservation. */
    method Checkout(lines: seq<Line>) returns (placed: bool)
      requires Valid() && Known(room.counters, lines)
      modifies this, room
      ensures Valid() && Snapshot() == Apply(old(Snapshot()), Step.Checkout(lines))
      ensures placed <==> lines != [] && Coverable(old(room.counters), lines)
      ensures placed ==> orders == old(orders) + [Order(lines, AwaitingPayment, [], None)]
      ensures !placed ==> Snapshot() == old(Snapshot())
    {
      ReserveLinesClosed(room.Snapshot(), OfOrder(|orders|), lines);
      if Coverable(room.counters, lines) {
        SoftCheckIsRedundant(room.counters, lines);
      }
      if lines == [] {
        return false;
      }
      for i := 0 to |lines|
        invariant forall k | 0 <= k < i && lines[k].Target().Some? ::
                    lines[k].quantity <= room.counters[lines[k].Target().value].Available()
      {
        var target := lines[i].Target();
        assert lines[i] in lines;
        if target.Some? && lines[i].quantity > room.counters[target.value].Available() {
          return false;
        }
      }
      var short := room.ReserveStock(|orders|, lines);
      if short.Some? {
        return false;
      }
      orders := orders + [Order(lines, AwaitingPayment, [], None)];
      placed := true;
    }

    /** A retry after a failure re-reserves; one on a still waiting order keeps its hold. */
    method PaymentRetry(i: nat) returns (mayPay: bool)
      requires Valid() && i < |orders|
      modifies this, room
      ensures Valid() && Snapshot() == Apply(old(Snapshot()), Retry(i))
      ensures mayPay <==> orders[i].status == AwaitingPayment
      ensures mayPay <==> old(orders)[i].status == AwaitingPayment
                          || (old(orders)[i].status == PaymentFailed
                              && Coverable(old(room.counters), old(orders)[i].lines))
      ensures !mayPay ==> Snapshot() == old(Snapshot())
    {
      var o := orders[i];
      assert o in orders;
      ReserveLinesClosed(room.Snapshot(), OfOrder(i), o.lines);
      if o.status != AwaitingPayment && o.status != PaymentFailed {
        return false;
      }
      if o.status == PaymentFailed {
        var short := room.ReserveStock(i, o.lines);
        if short.Some? {
          return false;
        }
        orders := orders[i := SetStatus(o, AwaitingPayment)];
      }
      mayPay := true;
    }

    // ----- the payment pipeline -----

    /** `interrupted` stands for any failure after the transaction, before the shipment record exists. */
    method OnPaymentCaptured(i: nat, interrupted: bool) returns (ran: bool)
      requires Valid() && i < |orders|
      modifies this, room
      ensures Valid() && |orders| == |old(orders)|
      ensures ran <==> old(orders)[i].status == AwaitingPayment
      ensures ran ==> orders[i].status == PaymentConfirmed
      ensures ran ==> Snapshot() == var paid := Apply(old(Snapshot()), CaptureReported(i));
                                    if interrupted then paid else Apply(paid, OpenShipment(i))
      ensures !ran ==> Snapshot() == old(Snapshot())
    {
      ghost var paid := Apply(Snapshot(), CaptureReported(i));
      var o := orders[i];
      assert o in orders;
      if o.status != AwaitingPayment {
        return false;
      }
      room.ConvertReservationToSale(i, o.lines);
      orders := orders[i := SetStatus(o, PaymentConfirmed)];
      assert Snapshot() == paid;
      assert orders[i].history[|o.history|].after == PaymentConfirmed;
      if !interrupted {
        CreateShipment(i);
      }
      ran := true;
    }

    /** Creates the shipment record, or keeps the one there is. */
    method CreateShipment(i: nat)
      requires Valid() && i < |orders| && WasConfirmed(orders[i])
      modifies this
      ensures Valid() && Snapshot() == Apply(old(Snapshot()), OpenShipment(i))
    {
      if orders[i].shipment.None? {
        orders := orders[i := orders[i].(shipment := Some(Shipment(Pending, [])))];
      }
    }

    method OnPaymentFailed(i: nat) returns (ran: bool)
      requires Valid() && i < |orders|
      modifies this, room
      ensures Valid() && Snapshot() == Apply(old(Snapshot()), FailureReported(i))
      ensures ran <==> old(orders)[i].status == AwaitingPayment
      ensures if ran then orders[i].status == PaymentFailed else Snapshot() == old(Snapshot())
    {
      var o := orders[i];
      assert o in orders;
      if o.status != AwaitingPayment {
        return false;
      }
      room.ReleaseReservation(i, o.lines);
      orders := orders[i := SetStatus(o, PaymentFailed)];
      ran := true;
    }

    method OnRefundProcessed(i: nat, full: bool)
      requires Valid() && i < |orders|
      modifies this
      ensures Valid() && Snapshot() == Apply(old(Snapshot()), RefundReported(i, full))
      ensures orders[i].status == if full then Refunded else PartiallyRefunded
    {
      orders := orders[i := SetStatus(orders[i], if full then Refunded else PartiallyRefunded)];
    }

    // ----- staff, buyers and sweeps -----

    method CancelOrder(i: nat, seen: Status) returns (ok: bool)
      requires Valid() && i < |orders|
      modifies this, room
      ensures Valid() && Snapshot() == Apply(old(Snapshot()), Cancel(i, seen))
      ensures ok <==> MayBeCancelled(seen) && MayBeCancelled(old(orders)[i].status)
      ensures orders == if ok then old(orders)[i := SetStatus(old(orders)[i], Cancelled)] else old(orders)
      ensures !ok ==> Snapshot() == old(Snapshot())
      ensures ok ==> orders[i].status == Cancelled
    {
      if !seen.Cancellable() {
        return false;
      }
      var o := orders[i];
      if !o.status.Cancellable() {
        return false;
      }
      CancelStep(Snapshot(), i, seen);
      if o.status.Paid() {
        room.RestoreStockForCancellation(i, o.lines);
      } else {
        room.ReleaseReservation(i, o.lines);
      }
      orders := orders[i := SetStatus(o, Cancelled)];
      ok := true;
    }

    method AdvanceOrderStatus(i: nat, seen: Status, from: Status, to: Status) returns (ok: bool)
      requires Valid() && i < |orders|
      modifies this
      ensures ok <==> seen == from == old(orders)[i].status
      ensures orders == if ok then old(orders)[i := SetStatus(old(orders)[i], to)] else old(orders)
      ensures ok ==> orders[i].status == to
    {
      if seen != from || orders[i].status != from {
        return false;
      }
      orders := orders[i := SetStatus(orders[i], to)];
      ok := true;
    }

    method AcceptOrder(i: nat, seen: Status) returns (ok: bool)
      requires Valid() && i < |orders|
      modifies this
      ensures Valid() && Snapshot() == Apply(old(Snapshot()), Accept(i, seen))
      ensures ok <==> seen == PaymentConfirmed == old(orders)[i].status
      ensures if ok then orders[i].status == Accepted else Snapshot() == old(Snapshot())
    {
      ok := AdvanceOrderStatus(i, seen, PaymentConfirmed, Accepted);
    }

    method MarkOrderPacked(i: nat, seen: Status) returns (ok: bool)
      requires Valid() && i < |orders|
      modifies this
      ensures Valid() && Snapshot() == Apply(old(Snapshot()), Pack(i, seen))
      ensures ok <==> seen == Accepted == old(orders)[i].status
      ensures if ok then orders[i].status == Packed else Snapshot() == old(Snapshot())
    {
      ok := AdvanceOrderStatus(i, seen, Accepted, Packed);
    }

    /** Saving a shipment records its own change and then syncs the order, as the order copy `seen` suggests. */
    method SaveShipment(i: nat, status: ShipmentStatus, seen: Status)
      requires Valid() && i < |orders| && orders[i].shipment.Some?
      modifies this
      ensures Valid() && Snapshot() == Apply(old(Snapshot()), Step.SaveShipment(i, status, seen))
      ensures orders[i].shipment.Some? && orders[i].shipment.value.status == status
      ensures var onTheWay := status == PickedUp || status == InTransit || status == OutForDelivery;
              orders[i].status == if onTheWay && seen != Shipped then Shipped
                                  else if status == DroppedOff && seen != Delivered then Delivered
                                  else old(orders)[i].status
    {
      var x := orders[i].shipment.value;
      orders := orders[i := orders[i].(shipment := Some(SetShipment(x, status)))];
      var to := OrderStatusFor(status);
      if to.Some? {
        if seen != to.value {
          orders := orders[i := SetStatus(orders[i], to.value)];
        }
      }
    }

    /**
     Polling the carrier: `reported` is what its answer maps to, if anything, and `current` the status
     on the caller's copy of the shipment. Only news is saved.
     */
    method SyncShipmentTracking(i: nat, tracked: bool, reported: Option<ShipmentStatus>, current: ShipmentStatus,
                                seen: Status) returns (updated: bool)
      requires Valid() && i < |orders| && orders[i].shipment.Some?
      modifies this
      ensures updated <==> tracked && reported.Some? && reported.value != current
      ensures Valid()
      ensures Snapshot() == if updated then Apply(old(Snapshot()), Step.SaveShipment(i, reported.value, seen))
                            else old(Snapshot())
    {
      if !tracked || reported.None? || reported.value == current {
        return false;
      }
      SaveShipment(i, reported.value, seen);
      updated := true;
    }

    /** The sweep's transaction on one order: lock, re-check, release. */
    method ExpireHold(i: nat) returns (ran: bool)
      requires Valid() && i < |orders|
      modifies this, room
      ensures Valid() && Snapshot() == Apply(old(Snapshot()), HoldExpired(i))
      ensures ran <==> old(orders)[i].status == AwaitingPayment
      ensures orders == if ran then old(orders)[i := SetStatus(old(orders)[i], Expired)] else old(orders)
    {
      var o := orders[i];
      assert o in orders;
      if o.status != AwaitingPayment {
        return false;
      }
      room.ReleaseReservation(i, o.lines);
      orders := orders[i := SetStatus(o, Expired)];
      ran := true;
    }

    /** The expiry sweep over the orders its query returned, each re-checked under its own lock. */
    method ReleaseExpiredReservations(found: seq<nat>) returns (released: nat)
      requires Valid()
      requires forall k | 0 <= k < |found| :: found[k] < |orders|
      requires Distinct(found)
      modifies this, room
      ensures Valid() && Snapshot() == Run(old(Snapshot()), Expiries(found))
      ensures Swept(old(orders), orders, found, Expired)
      ensures forall i | 0 <= i < |orders| ::
                orders[i].status == if i in found && old(orders)[i].status == AwaitingPayment then Expired
                                    else old(orders)[i].status
      ensures released == |Unpaid(old(orders), found)|
    {
      ghost var was := Snapshot();
      released := 0;
      for n := 0 to |found|
        invariant Snapshot() == Run(was, Expiries(found[..n]))
        invariant |orders| == |was.orders|
        invariant released == CountIn(was.orders, found[..n], Expired)
      {
        ExpirySweep(was, found[..n]);
        NextFound(was.orders, orders, found, n, Expired);
        ExpiriesOneMore(was, found, n);
        var ran := ExpireHold(found[n]);
        if ran {
          released := released + 1;
        }
      }
      assert found[..|found|] == found;
      ExpirySweep(was, found);
      CountsTheUnpaid(was.orders, found);
    }

    /** The stale sweep's attempt on one order, whose status was unpaid when the query saw it. */
    method CancelIfStillOpen(i: nat, seen: Status) returns (ok: bool)
      requires Valid() && i < |orders| && (seen == AwaitingPayment || seen == PaymentFailed)
      modifies this, room
      ensures Snapshot() == Apply(old(Snapshot()), Cancel(i, seen))
      ensures ok <==> Due(old(orders)[i].status, Cancelled)
      ensures orders == if ok then old(orders)[i := SetStatus(old(orders)[i], Cancelled)] else old(orders)
    {
      ok := CancelOrder(i, seen);
    }

    /**
     The stale-order sweep; `seen[k]` is the status its query saw for `found[k]`.
     An order is skipped exactly when its current status is not cancellable, so an
     order paid since the query is still cancelled, and its stock put back.
     */
    method CancelStaleUnpaidOrders(found: seq<nat>, seen: seq<Status>) returns (cancelled: nat)
      requires Valid() && |found| == |seen|
      requires forall k | 0 <= k < |found| ::
                 found[k] < |orders| && (seen[k] == AwaitingPayment || seen[k] == PaymentFailed)
      requires Distinct(found)
      modifies this, room
      ensures Valid()
      ensures Snapshot() == Run(old(Snapshot()), Cancellations(found, seen))
      ensures Swept(old(orders), orders, found, Cancelled)
      ensures forall i | 0 <= i < |orders| ::
                orders[i].status == if i in found && MayBeCancelled(old(orders)[i].status) then Cancelled
                                    else old(orders)[i].status
      ensures cancelled == |StillOpen(old(orders), found)|
    {
      ghost var was := Snapshot();
      cancelled := 0;
      for n := 0 to |found|
        invariant Snapshot() == Run(was, Cancellations(found[..n], seen[..n]))
        invariant |orders| == |was.orders|
        invariant cancelled == CountIn(was.orders, found[..n], Cancelled)
      {
        CancellationSweep(was, found[..n], seen[..n]);
        NextFound(was.orders, orders, found, n, Cancelled);
        CancellationsOneMore(was, found, seen, n);
        var ok := CancelIfStillOpen(found[n], seen[n]);
        if ok {
          cancelled := cancelled + 1;
        }
      }
      assert found[..|found|] == found && seen[..|found|] == seen;
      CancellationSweep(was, found, seen);
      CountsTheOpen(was.orders, found);
      SweptStatuses(was.orders, orders, found);
    }
  }
}
