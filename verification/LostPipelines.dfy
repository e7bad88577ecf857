/**
 When an order hears of its payment, and what a lost pipeline leaves behind.

 The payment row commits first and the order follows in a pipeline of its own.
 The lemmas say, for every step and every run of the desk, exactly when an order
 becomes confirmed and when its shipment is opened; and that the hold of an order
 whose pipeline was lost can be stranded by a refund the desk accepts.
 */
module LostPipelines {
  import opened Wrappers
  import opened Payments
  import opened PaymentRuns
  import opened PaymentLog
  import Stock
  import Orders
  import AuditTrail
  import Ownership
  import Conservation
  import opened PaymentRules
  import opened OrderMoves
  import C = Confluence

  /**
   The act confirms order `i`: a report of a capture, for a payment of that order, on a copy that does
   not yet say captured, whose pipeline is not lost, while the order awaits payment.
   */
  predicate Confirms(d: Desk, act: Act, i: nat)
    requires Ready(d, act)
  {
    && act.Applying? && act.copy.order == i && act.g.status == Captured && act.copy.status != Captured
    && act.fate != Lost && i < |d.shop.orders| && d.shop.orders[i].status == Orders.AwaitingPayment
  }

  /** The shop steps of an act contain a capture exactly when the act confirms. */
  lemma CaptureInSteps(d: Desk, act: Act, i: nat)
    requires Valid(d) && Ready(d, act)
    ensures Orders.CaptureReported(i) in ShopSteps(d, act) <==> Confirms(d, act, i)
    ensures Confirms(d, act, i) ==> ShopSteps(d, act) == CaptureSteps(d.shop, i, act.fate)
    ensures Orders.OpenShipment(i) in ShopSteps(d, act) ==> Confirms(d, act, i) && act.fate == Completed
  {
  }

  predicate IsConfirmed(shop: Orders.Shop, i: nat) {
    i < |shop.orders| && Orders.WasConfirmed(shop.orders[i])
  }

  predicate HasShipment(shop: Orders.Shop, i: nat) {
    i < |shop.orders| && shop.orders[i].shipment.Some?
  }

  // ----- on the shop -----

  lemma HistoryStays(o: Orders.Order, step: Orders.Step, coverable: bool)
    ensures Orders.WasConfirmed(o) ==> Orders.WasConfirmed(Orders.Decide(o, step, coverable).order)
    ensures o.shipment.Some? ==> Orders.Decide(o, step, coverable).order.shipment.Some?
    ensures Orders.Decide(o, step, coverable).order.shipment.Some? ==> o.shipment.Some? || step.OpenShipment?
  {
    AuditTrail.DecisionShape(o, step, coverable);
  }

  /** What is confirmed or has a shipment stays so; only the tail of a capture pipeline opens one. */
  lemma ShopStep(s: Orders.Shop, step: Orders.Step, i: nat)
    requires Orders.Valid(s)
    ensures IsConfirmed(s, i) ==> IsConfirmed(Orders.Apply(s, step), i)
    ensures HasShipment(s, i) ==> HasShipment(Orders.Apply(s, step), i)
    ensures HasShipment(Orders.Apply(s, step), i) ==> HasShipment(s, i) || step == Orders.OpenShipment(i)
  {
    Orders.OrderStep(s, step, i);
    if Orders.OnAnOrder(step) && step.order == i < |s.orders| {
      HistoryStays(s.orders[i], step, Stock.Coverable(s.inventory.counters, s.orders[i].lines));
    }
  }

  lemma {:induction false} ShopRun(s: Orders.Shop, steps: seq<Orders.Step>, i: nat)
    requires Orders.Valid(s)
    ensures IsConfirmed(s, i) ==> IsConfirmed(Orders.Run(s, steps), i)
    ensures HasShipment(s, i) ==> HasShipment(Orders.Run(s, steps), i)
    ensures HasShipment(Orders.Run(s, steps), i) ==> HasShipment(s, i) || Orders.OpenShipment(i) in steps
  {
    if steps != [] {
      ShopRun(s, steps[..|steps| - 1], i);
      ShopStep(Orders.Run(s, steps[..|steps| - 1]), steps[|steps| - 1], i);
    }
  }

  /** A waiting order's pipeline confirms it, and if it completes the order has its shipment. */
  lemma PipelineConfirms(shop: Orders.Shop, i: nat, fate: Fate)
    requires Orders.Valid(shop) && i < |shop.orders| && fate != Lost
    requires shop.orders[i].status == Orders.AwaitingPayment
    ensures var shop' := Orders.Run(shop, CaptureSteps(shop, i, fate));
            IsConfirmed(shop', i) && (fate == Completed ==> HasShipment(shop', i))
  {
    C.CapturePipeline(shop, i, fate);
    C.CapturedOrder(shop, i);
    C.OpenedOrder(Orders.Apply(shop, Orders.CaptureReported(i)), i);
  }

  // ----- at the desk -----

  /**
   Exactly when an order becomes confirmed, and when its shipment is opened: when an act confirms it,
   and when, besides, that act's pipeline completes. Nothing else does either, and nothing undoes them.
   */
  lemma ConfirmedStepIff(d: Desk, step: Step, i: nat)
    requires Valid(d)
    ensures var act, d' := ActOf(d, step), Do(d, step).desk;
            && (IsConfirmed(d'.shop, i) <==> IsConfirmed(d.shop, i) || Confirms(d, act, i))
            && (HasShipment(d'.shop, i) <==> HasShipment(d.shop, i) || (Confirms(d, act, i) && act.fate == Completed))
  {
    var act := ActOf(d, step);
    PerformRefines(d, act);
    CaptureInSteps(d, act, i);
    StepsConfirm(d.shop, ShopSteps(d, act), i, Confirms(d, act, i),
                 if act.Applying? then act.fate else Lost);
  }

  /** What the shop steps of an act, a pipeline for `i` or none, do to order `i`. */
  lemma StepsConfirm(shop: Orders.Shop, steps: seq<Orders.Step>, i: nat, confirms: bool, fate: Fate)
    requires Orders.Valid(shop) && (Orders.CaptureReported(i) in steps <==> confirms)
    requires Orders.OpenShipment(i) in steps ==> confirms && fate == Completed
    requires confirms ==>
               i < |shop.orders| && shop.orders[i].status == Orders.AwaitingPayment
               && fate != Lost && steps == CaptureSteps(shop, i, fate)
    ensures var shop' := Orders.Run(shop, steps);
            && (IsConfirmed(shop', i) <==> IsConfirmed(shop, i) || confirms)
            && (HasShipment(shop', i) <==> HasShipment(shop, i) || (confirms && fate == Completed))
  {
    ShopRun(shop, steps, i);
    if confirms {
      PipelineConfirms(shop, i, fate);
    } else if IsConfirmed(Orders.Run(shop, steps), i) {
      ConfirmedRun(shop, steps, i);
    }
  }

  /** Some step of the run confirms order `i`; if `whole`, with a pipeline that completes. */
  ghost predicate SomeStepConfirms(d: Desk, steps: seq<Step>, i: nat, whole: bool)
    requires Valid(d)
  {
    steps != []
    && var before := DeskRun(d, steps[..|steps| - 1]);
       var act := ActOf(before, steps[|steps| - 1]);
       SomeStepConfirms(d, steps[..|steps| - 1], i, whole)
       || (Confirms(before, act, i) && (whole ==> act.fate == Completed))
  }

  /** Over any run an order is confirmed exactly if some step confirms it, and shipped for exactly if one completes. */
  lemma {:induction false} ConfirmedRunIff(d: Desk, steps: seq<Step>, i: nat)
    requires Valid(d)
    ensures IsConfirmed(DeskRun(d, steps).shop, i) <==> IsConfirmed(d.shop, i) || SomeStepConfirms(d, steps, i, false)
    ensures HasShipment(DeskRun(d, steps).shop, i) <==> HasShipment(d.shop, i) || SomeStepConfirms(d, steps, i, true)
  {
    if steps != [] {
      ConfirmedRunIff(d, steps[..|steps| - 1], i);
      ConfirmedStepIff(DeskRun(d, steps[..|steps| - 1]), steps[|steps| - 1], i);
    }
  }

  lemma {:induction false} BookedDesk(d: Desk, steps: seq<Step>)
    requires Valid(d) && AuditTrail.Booked(d.shop)
    ensures AuditTrail.Booked(DeskRun(d, steps).shop)
  {
    if steps != [] {
      var before := DeskRun(d, steps[..|steps| - 1]);
      BookedDesk(d, steps[..|steps| - 1]);
      PerformRefines(before, ActOf(before, steps[|steps| - 1]));
      AuditTrail.BookedRun(before.shop, ShopSteps(before, ActOf(before, steps[|steps| - 1])));
    }
  }

  lemma {:induction false} ConfirmedOnlyOnce(d: Desk, steps: seq<Step>, i: nat)
    requires Valid(d) && AuditTrail.Booked(d.shop) && IsConfirmed(d.shop, i)
    ensures !SomeStepConfirms(d, steps, i, false) && !SomeStepConfirms(d, steps, i, true)
  {
    if steps != [] {
      var before := DeskRun(d, steps[..|steps| - 1]);
      ConfirmedOnlyOnce(d, steps[..|steps| - 1], i);
      ConfirmedRunIff(d, steps[..|steps| - 1], i);
      BookedDesk(d, steps[..|steps| - 1]);
      assert AuditTrail.Tracked(before.shop.orders[i]);
    }
  }

  /** An interrupted pipeline is never taken up again: a confirmed order without a shipment never gets one. */
  lemma AnInterruptedPipelineStaysInterrupted(d: Desk, steps: seq<Step>, i: nat)
    requires Valid(d) && AuditTrail.Booked(d.shop) && IsConfirmed(d.shop, i) && !HasShipment(d.shop, i)
    ensures IsConfirmed(DeskRun(d, steps).shop, i) && !HasShipment(DeskRun(d, steps).shop, i)
  {
    ConfirmedRunIff(d, steps, i);
    ConfirmedOnlyOnce(d, steps, i);
  }

  // ----- failed and refunded orders -----

  /** A capture pipeline never leads to a status that one failure or refund leads to. */
  lemma CaptureLeadsElsewhere(shop: Orders.Shop, capture: Orders.Step, open: Orders.Step, i: nat, to: Orders.Status)
    requires Orders.Valid(shop) && i < |shop.orders| && capture.CaptureReported? && open.OpenShipment?
    requires to == Orders.PaymentFailed || to == Orders.Refunded || to == Orders.PartiallyRefunded
    ensures var orders := Orders.Apply(Orders.Apply(shop, capture), open).orders;
            i < |orders| && !Becomes(shop.orders[i], orders[i], to)
  {
    EveryMoveHasItsCause(shop, capture, i, to);
    EveryMoveHasItsCause(Orders.Apply(shop, capture), open, i, to);
  }

  /** The steps of an act that end in such a status. */
  lemma StepsLeadThere(shop: Orders.Shop, steps: seq<Orders.Step>, i: nat, to: Orders.Status)
    requires Orders.Valid(shop) && i < |shop.orders|
    requires to == Orders.PaymentFailed || to == Orders.Refunded || to == Orders.PartiallyRefunded
    requires |steps| > 1 ==> |steps| == 2 && steps[0].CaptureReported? && steps[1].OpenShipment?
    ensures var o, orders := shop.orders[i], Orders.Run(shop, steps).orders;
            && i < |orders|
            && (Becomes(o, orders[i], to)
                <==> |steps| == 1 && Orders.OnAnOrder(steps[0]) && steps[0].order == i
                     && Leads(o, steps[0], Stock.Coverable(shop.inventory.counters, o.lines), to))
  {
    if |steps| == 1 {
      assert steps == [steps[0]];
      C.OneStepRun(shop, steps[0]);
      EveryMoveHasItsCause(shop, steps[0], i, to);
    } else if |steps| == 2 {
      assert steps == [steps[0], steps[1]];
      C.TwoStepRun(shop, steps[0], steps[1]);
      CaptureLeadsElsewhere(shop, steps[0], steps[1], i, to);
    }
  }

  /** A report of a failure, on a copy that does not show it, whose pipeline is not lost, while the order waits. */
  predicate Fails(d: Desk, act: Act, i: nat)
    requires Ready(d, act) && i < |d.shop.orders|
  {
    && act.Applying? && act.copy.order == i && act.g.status == Failed && act.copy.status != Failed
    && act.fate != Lost && d.shop.orders[i].status == Orders.AwaitingPayment
  }

  /** A refund of a payment of the order is processed, its pipeline not lost; `full` if nothing is left by the copy. */
  predicate Refunds(d: Desk, act: Act, i: nat, full: bool)
    requires Ready(d, act)
  {
    match act
    case Settling(k, seen, copy, outcome, fate) =>
      && outcome == Processed != seen && fate != Lost && copy.order == i
      && full == (copy.refunded + d.refunds[k].amount >= copy.amount)
    case Repaying(_, copy, amount, _, instant, fate) =>
      && CanStillRefund(copy, amount) && instant == Some(Processed) && fate != Lost && copy.order == i
      && full == (copy.refunded + amount >= copy.amount)
    case _ => false
  }

  lemma RefundLeadsThere(shop: Orders.Shop, steps: seq<Orders.Step>, i: nat, full: bool)
    requires Orders.Valid(shop) && i < |shop.orders|
    requires |steps| > 1 ==> |steps| == 2 && steps[0].CaptureReported? && steps[1].OpenShipment?
    ensures var o, orders := shop.orders[i], Orders.Run(shop, steps).orders;
            var to := if full then Orders.Refunded else Orders.PartiallyRefunded;
            && i < |orders|
            && (Becomes(o, orders[i], to)
                <==> o.status != to && |steps| == 1 && steps[0] == Orders.RefundReported(i, full))
  {
    StepsLeadThere(shop, steps, i, if full then Orders.Refunded else Orders.PartiallyRefunded);
  }

  lemma PipelineShape(d: Desk, act: Act)
    requires Valid(d) && Ready(d, act)
    ensures var steps := ShopSteps(d, act);
            |steps| > 1 ==> |steps| == 2 && steps[0].CaptureReported? && steps[1].OpenShipment?
  {
  }

  lemma FailureInSteps(d: Desk, act: Act, i: nat)
    requires Valid(d) && Ready(d, act) && i < |d.shop.orders|
    ensures var steps := ShopSteps(d, act);
            |steps| == 1 && steps[0] == Orders.FailureReported(i) && d.shop.orders[i].status == Orders.AwaitingPayment
            <==> Fails(d, act, i)
  {
  }

  lemma RefundInSteps(d: Desk, act: Act, i: nat, full: bool)
    requires Valid(d) && Ready(d, act)
    ensures var steps := ShopSteps(d, act);
            |steps| == 1 && steps[0] == Orders.RefundReported(i, full) <==> Refunds(d, act, i, full)
  {
  }

  /** Over every step: an order's payment fails exactly when an act fails it. */
  lemma FailedStepIff(d: Desk, step: Step, i: nat)
    requires Valid(d) && i < |d.shop.orders|
    ensures var act, orders := ActOf(d, step), Do(d, step).desk.shop.orders;
            i < |orders| && (Becomes(d.shop.orders[i], orders[i], Orders.PaymentFailed) <==> Fails(d, act, i))
  {
    var act := ActOf(d, step);
    PerformRefines(d, act);
    PipelineShape(d, act);
    FailureInSteps(d, act, i);
    StepsLeadThere(d.shop, ShopSteps(d, act), i, Orders.PaymentFailed);
  }

  /** And it is newly refunded, in full or in part, exactly when an act refunds its payment so. */
  lemma RefundedStepIff(d: Desk, step: Step, i: nat, full: bool)
    requires Valid(d) && i < |d.shop.orders|
    ensures var act, orders := ActOf(d, step), Do(d, step).desk.shop.orders;
            var to := if full then Orders.Refunded else Orders.PartiallyRefunded;
            && i < |orders|
            && (Becomes(d.shop.orders[i], orders[i], to)
                <==> d.shop.orders[i].status != to && Refunds(d, act, i, full))
  {
    var act := ActOf(d, step);
    PerformRefines(d, act);
    PipelineShape(d, act);
    RefundInSteps(d, act, i, full);
    RefundLeadsThere(d.shop, ShopSteps(d, act), i, full);
  }

  // ----- a hold stranded -----

  /** The capture of a waiting order, its pipeline lost: the payment is captured, its totals and the shop as before. */
  ghost function LostCapture(d: Desk, p: nat, g: GatewayPayment, key: string, now: nat): (r: Desk)
    requires C.Race(d, p, g) && !IsProcessed(d.hooks, key)
    ensures Valid(r) && r.shop == d.shop && p < |r.accounts|
    ensures var before, row := d.accounts[p].row, r.accounts[p].row;
            row.status == Captured && row.order == before.order && row.refunded == before.refunded
            && row.amount == before.amount
  {
    var orderId := d.accounts[p].row.gatewayOrderId;
    var delivery := Webhook(key, false, Load(d, PaymentNotice(g.gatewayPaymentId, orderId), Some(g)), now, Lost);
    DoValid(d, delivery);
    C.FindsOnlyMatch(d.accounts, p, g.gatewayPaymentId, orderId);
    Do(d, delivery).desk
  }

  /** What is left of a captured payment, refunded on a fresh copy and processed on the spot. */
  ghost function RefundInFull(d: Desk, p: nat, id: string): (r: Orders.Shop)
    requires Valid(d) && p < |d.accounts| && d.accounts[p].row.status == Captured
    requires d.accounts[p].row.refunded < d.accounts[p].row.amount && d.accounts[p].row.order < |d.shop.orders|
    ensures r == Orders.Apply(d.shop, Orders.RefundReported(d.accounts[p].row.order, true))
  {
    var row := d.accounts[p].row;
    C.OneStepRun(d.shop, Orders.RefundReported(row.order, true));
    Do(d, Repay(p, row, row.amount - row.refunded, id, Some(Processed), Completed)).desk.shop
  }

  /**
   The desk accepts it: from any race in a shop in order, a capture whose pipeline is lost, then the
   refund of the payment on a fresh copy, leave the order refunded and exactly its units held for nobody.
   */
  lemma ALostCaptureRefundedStrandsTheHold(d: Desk, p: nat, g: GatewayPayment, key: string, now: nat, id: string,
                                           t: Stock.Target)
    requires C.Race(d, p, g) && !IsProcessed(d.hooks, key) && d.accounts[p].row.refunded < d.accounts[p].row.amount
    requires AuditTrail.Booked(d.shop) && Ownership.Owned(d.shop) && t in d.shop.inventory.counters
    requires Stock.Demand(d.shop.orders[d.accounts[p].row.order].lines, t) > 0
    ensures var order, shop := d.accounts[p].row.order, RefundInFull(LostCapture(d, p, g, key, now), p, id);
            && order < |shop.orders| && shop.orders[order].status == Orders.Refunded && t in shop.inventory.counters
            && Ownership.HeldUnits(shop, t)
               == Ownership.Entitled(shop, t) + Stock.Demand(d.shop.orders[order].lines, t)
  {
    RefundedUnpaid(d.shop, d.accounts[p].row.order, t);
  }

  lemma RefundedUnpaid(shop: Orders.Shop, i: nat, t: Stock.Target)
    requires AuditTrail.Booked(shop) && Ownership.Owned(shop) && t in shop.inventory.counters && i < |shop.orders|
    requires shop.orders[i].status == Orders.AwaitingPayment && Stock.Demand(shop.orders[i].lines, t) > 0
    ensures var shop' := Orders.Apply(shop, Orders.RefundReported(i, true));
            && i < |shop'.orders| && shop'.orders[i].status == Orders.Refunded && t in shop'.inventory.counters
            && Ownership.HeldUnits(shop', t) == Ownership.Entitled(shop', t) + Stock.Demand(shop.orders[i].lines, t)
  {
    RefundedOrder(shop, i);
    Conservation.RefundStrandsTheHold(shop, i, true, t);
  }

  lemma RefundedOrder(shop: Orders.Shop, i: nat)
    requires Orders.Valid(shop) && i < |shop.orders|
    ensures var shop' := Orders.Apply(shop, Orders.RefundReported(i, true));
            i < |shop'.orders| && shop'.orders[i].status == Orders.Refunded
  {
    Orders.OrderStep(shop, Orders.RefundReported(i, true), i);
  }
}
