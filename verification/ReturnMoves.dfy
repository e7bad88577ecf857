/**
 Which step moves a return request where, and what its status vouches for.

 A request is approved, rejected, withdrawn, received and refunded by one kind
 of step each; over every run a request that says refunded has a linked refund
 that stands processed, and one that says initiated has a linked refund.
 */
module ReturnMoves {
  import opened Wrappers
  import opened Stock
  import opened Returns
  import P = Payments

  /** A final result of a refund linked to the request, brought by a caller that does not know it yet. */
  predicate Settles(o: Office, step: Step, r: nat, result: P.RefundStatus)
    requires r < |o.requests|
  {
    || (step.LinkRefund? && step.request == r && step.outcome == Some(result))
    || (step.SettleRefund? && step.request == r && step.refund < |o.requests[r].refunds|
        && step.result == result && step.known != result)
  }

  /** The step that leads to each status, by what its caller holds. */
  predicate Leads(o: Office, step: Step, r: nat, to: Status)
    requires r < |o.requests|
  {
    match to
    case Requested => false
    case Approved => step == Review(r, Requested, Approve)
    case Rejected => step == Review(r, Requested, Reject)
    case Cancelled => step == Review(r, Requested, Withdraw)
    case Received =>
      || (step.Receive? && step.request == r && step.seen == Approved) || Settles(o, step, r, P.Bounced)
    case RefundInitiated => step.StartRefund? && step.request == r && step.seen == Received && step.accepted
    case Refunded => Settles(o, step, r, P.Processed)
  }

  /** For every step, request and status: the request newly stands there exactly if such a step takes it there. */
  lemma EveryMoveHasItsCause(o: Office, step: Step, r: nat, to: Status)
    requires Valid(o) && r < |o.requests|
    ensures r < |Do(o, step).requests|
    ensures o.requests[r].status != to && Do(o, step).requests[r].status == to
            <==> o.requests[r].status != to && Leads(o, step, r, to)
  {
  }

  /** New requests wait for review, on the lines asked for; whatever else happens, no request is lost. */
  lemma RequestsAreOnlyAdded(o: Office, step: Step)
    requires Valid(o)
    ensures var before, after := o.requests, Do(o, step).requests;
            && |before| <= |after| <= |before| + 1
            && (|after| > |before| ==>
                  && step.Submit? && step.delivered && step.window == Open
                  && after[|before|].status == Requested && after[|before|].refunds == []
                  && |after[|before|].lines| == |step.asks|
                  && forall k | 0 <= k < |step.asks| ::
                       && after[|before|].lines[k] == ReturnLine(step.asks[k].item, step.asks[k].quantity, false)
                       && step.asks[k].item < |o.items| && o.items[step.asks[k].item].order == step.order)
  {
    if step.Submit? && |Do(o, step).requests| > |o.requests| {
      assert forall k | 0 <= k < |step.asks| :: AskIsFine(o.items, step.order, step.asks[k], step.left[k]);
    }
  }

  // ----- what a status vouches for -----

  predicate Vouched(q: Request) {
    && (q.status == Refunded ==> P.Processed in q.refunds)
    && (q.status == RefundInitiated ==> q.refunds != [])
  }

  lemma VouchedStep(o: Office, step: Step)
    requires Valid(o) && forall q <- o.requests :: Vouched(q)
    ensures forall q <- Do(o, step).requests :: Vouched(q)
  {
    var after := Do(o, step).requests;
    forall r | 0 <= r < |after|
      ensures Vouched(after[r])
    {
      VouchedAt(o, step, r);
    }
  }

  lemma VouchedAt(o: Office, step: Step, r: nat)
    requires Valid(o) && r < |Do(o, step).requests| && (r < |o.requests| ==> Vouched(o.requests[r]))
    ensures Vouched(Do(o, step).requests[r])
  {
    if r < |o.requests| && OnRequest(o, step) && Passes(step) && step.request == r {
      OutcomeIsRecorded(o.requests[r].refunds, step);
    }
  }

  /** The refunds a step leaves show the outcome it brings, in its place. */
  lemma OutcomeIsRecorded(refunds: seq<P.RefundStatus>, step: Step)
    requires step.SettleRefund? ==> step.refund < |refunds|
    ensures |RefundsAfter(refunds, step)| >= |refunds|
    ensures step.SettleRefund? ==> step.result in RefundsAfter(refunds, step)
    ensures step.LinkRefund? ==> Outcome(step.outcome) in RefundsAfter(refunds, step)
    ensures step.StartRefund? ==> RefundsAfter(refunds, step) != []
    ensures step.LinkRefund? ==> forall x <- refunds :: x in RefundsAfter(refunds, step)
  {
    if step.SettleRefund? {
      assert RefundsAfter(refunds, step)[step.refund] == step.result;
    }
  }

  /** Over every run, whatever copies its callers hold: refunded means processed, and initiated means linked. */
  lemma {:induction false} EveryRunVouched(o: Office, steps: seq<Step>)
    requires Valid(o) && o.requests == []
    ensures forall q <- Run(o, steps).requests :: Vouched(q)
  {
    if steps != [] {
      EveryRunVouched(o, steps[..|steps| - 1]);
      VouchedStep(Run(o, steps[..|steps| - 1]), steps[|steps| - 1]);
    }
  }

  // ----- what counts, and where it goes -----

  /** Rejected and withdrawn requests claim nothing of an item; every other one claims all its lines ask of it. */
  lemma WhatARequestClaims(q: Request, item: nat)
    ensures ClaimOf(q, item) == if q.status == Rejected || q.status == Cancelled then 0 else Quantity(q.lines, item)
  {
  }

  /** Returned units go to the counter a sale of the same product and variant takes from, or nowhere. */
  lemma ReturnsGoWhereSalesComeFrom(x: Item)
    ensures x.product == None ==> x.Shelf() == None
    ensures x.product.Some? ==>
              && x.Shelf().Some?
              && forall t: Target ::
                   UnitsFor([Line(x.product, x.variant, x.quantity)], t)
                   == if t == x.Shelf().value then x.quantity else 0
  {
    OneLineUnits(Line(x.product, x.variant, x.quantity));
  }

  /** A receipt puts each restocked line on its shelf, and touches nothing that is held. */
  lemma {:induction false} ReceiveCounters(items: seq<Item>, inv: Inventory, r: nat, restock: set<nat>,
                                           lines: seq<ReturnLine>, t: Target)
    requires Shelvable(items, inv.counters, lines) && t in inv.counters
    ensures var (inv', lines') := ReceiveLines(items, inv, r, restock, lines);
            inv'.counters[t]
            == Counter(inv.counters[t].stock + RestockedTo(items, lines', t), inv.counters[t].reserved)
  {
    if lines != [] {
      var n := |lines| - 1;
      assert lines[n] in lines;
      ReceiveCounters(items, inv, r, restock, lines[..n], t);
      var (before, judged) := ReceiveLines(items, inv, r, restock, lines[..n]);
      var (after, line) := Judged(items, before, r, n in restock, lines[n]);
      RestockedToOneMore(items, judged, line, t);
    }
  }

  lemma ReceiveAllCounters(items: seq<Item>, inv: Inventory, r: nat, restock: set<nat>, lines: seq<ReturnLine>)
    requires Shelvable(items, inv.counters, lines)
    ensures var (inv', lines') := ReceiveLines(items, inv, r, restock, lines);
            forall t <- inv.counters ::
              && inv'.counters[t].stock == inv.counters[t].stock + RestockedTo(items, lines', t)
              && inv'.counters[t].reserved == inv.counters[t].reserved
  {
    var (inv', lines') := ReceiveLines(items, inv, r, restock, lines);
    forall t | t in inv.counters
      ensures inv'.counters[t] == Counter(inv.counters[t].stock + RestockedTo(items, lines', t),
                                          inv.counters[t].reserved)
    {
      ReceiveCounters(items, inv, r, restock, lines, t);
    }
  }

  lemma LinesAreShelvable(o: Office, r: nat)
    requires Valid(o) && r < |o.requests|
    ensures Shelvable(o.items, o.inventory.counters, o.requests[r].lines)
    ensures forall l <- o.requests[r].lines :: l.item < |o.items|
  {
    assert o.requests[r] in o.requests;
    forall l | l in o.requests[r].lines
      ensures l.quantity > 0 && (ShelfFor(o.items, l).Some? ==> ShelfFor(o.items, l).value in o.inventory.counters)
    {
      assert o.items[l.item] in o.items;
    }
  }
}
