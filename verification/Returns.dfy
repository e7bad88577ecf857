/**
 The return workflow, its quantity bounds, and the stock it puts back.

 A request reserves quantities of order items until it is rejected or cancelled.
 Every check is made on what the caller loaded, a status or the quantities left,
 and is not repeated when the result is saved; refunds move a request without
 looking at where it stands, and one page links a refund to any request at all.
 The lemmas say exactly which steps the bounds do not survive.
 */
module Returns {
  import opened Wrappers
  import opened Stock
  import P = Payments

  datatype Status = Requested | Approved | Rejected | Received | RefundInitiated | Refunded | Cancelled {
    /** Still counted against what was bought. */
    predicate Live() {
      !Rejected? && !Cancelled?
    }

    /** The parcel has come back. */
    predicate PastReceipt() {
      Received? || RefundInitiated? || Refunded?
    }
  }

  /** An order item, as bought. */
  datatype Item = Item(order: nat, product: Option<nat>, variant: Option<nat>, quantity: nat) {
    /** Where returned units go: nowhere once the product is deleted. */
    function Shelf(): Option<Target> {
      if product.None? then None
      else if variant.Some? then Some(OfVariant(variant.value)) else Some(OfProduct(product.value))
    }
  }

  datatype ReturnLine = ReturnLine(item: nat, quantity: nat, restocked: bool)

  /** A request with the statuses of the refunds linked to it. */
  datatype Request = Request(order: nat, lines: seq<ReturnLine>, status: Status, refunds: seq<P.RefundStatus>)

  datatype Ask = Ask(item: nat, quantity: int)

  /** The return window: no delivery date recorded, still open, or passed. */
  datatype Window = Undated | Open | Passed

  datatype Office = Office(items: seq<Item>, requests: seq<Request>, inventory: Inventory)

  /**
   `left[k]` is what the caller read to be returnable of the k-th item asked for, and `seen` the
   status on the caller's copy, of the request or of the refund.
   */
  datatype Step =
    | Submit(order: nat, delivered: bool, window: Window, asks: seq<Ask>, left: seq<int>)
    | Review(request: nat, seen: Status, verdict: Verdict)
    | Receive(request: nat, seen: Status, restock: set<nat>)
    | StartRefund(request: nat, seen: Status, accepted: bool, outcome: Option<P.RefundStatus>)
    | LinkRefund(request: nat, outcome: Option<P.RefundStatus>)
    | SettleRefund(request: nat, refund: nat, known: P.RefundStatus, result: P.RefundStatus)
    | Elsewhere(kind: Kind, source: Source, target: Target, counter: Counter)

  datatype Verdict = Approve | Reject | Withdraw {
    function Status(): Status {
      match this
      case Approve => Approved
      case Reject => Rejected
      case Withdraw => Cancelled
    }
  }

  ghost predicate Valid(o: Office) {
    && (forall x <- o.items :: x.Shelf().Some? ==> x.Shelf().value in o.inventory.counters)
    && (forall q <- o.requests :: forall l <- q.lines ::
          l.item < |o.items| && l.quantity > 0 && (l.restocked ==> o.items[l.item].Shelf().Some?))
  }

  // ----- quantities -----

  /** Units of an item over some lines. */
  function Quantity(lines: seq<ReturnLine>, item: nat): nat {
    if lines == [] then 0
    else
      var n := |lines| - 1;
      Quantity(lines[..n], item) + if lines[n].item == item then lines[n].quantity else 0
  }

  function ClaimOf(q: Request, item: nat): nat {
    if q.status.Live() then Quantity(q.lines, item) else 0
  }

  /** Units of an item over all requests that are neither rejected nor cancelled. */
  function Claimed(requests: seq<Request>, item: nat): nat {
    if requests == [] then 0
    else Claimed(requests[..|requests| - 1], item) + ClaimOf(requests[|requests| - 1], item)
  }

  function Remaining(o: Office, item: nat): int
    requires item < |o.items|
  {
    o.items[item].quantity - Claimed(o.requests, item)
  }

  // ----- the workflow -----

  function LinesFor(asks: seq<Ask>): (lines: seq<ReturnLine>)
    ensures |lines| == |asks|
    ensures forall k | 0 <= k < |asks| :: lines[k] == ReturnLine(asks[k].item, Max(asks[k].quantity, 0), false)
  {
    if asks == [] then []
    else
      var n := |asks| - 1;
      LinesFor(asks[..n]) + [ReturnLine(asks[n].item, Max(asks[n].quantity, 0), false)]
  }

  /** The check of one requested line, against what the caller read to be left of its item. */
  predicate AskIsFine(items: seq<Item>, order: nat, a: Ask, left: int) {
    a.item < |items| && items[a.item].order == order && 0 < a.quantity <= left
  }

  predicate Accepts(items: seq<Item>, step: Step) {
    step.Submit? && step.delivered && step.window == Open && step.asks != [] && |step.left| == |step.asks|
    && forall k | 0 <= k < |step.asks| :: AskIsFine(items, step.order, step.asks[k], step.left[k])
  }

  function ShelfFor(items: seq<Item>, l: ReturnLine): Option<Target> {
    if l.item < |items| then items[l.item].Shelf() else None
  }

  /** One line of a receipt: what is to be restocked goes on the shelf, if there still is one. */
  function Judged(items: seq<Item>, inv: Inventory, r: nat, goes: bool, l: ReturnLine): (Inventory, ReturnLine) {
    var shelf := ShelfFor(items, l);
    if goes && shelf.Some?
    then (PutAway(inv, Returned, OfReturn(r), shelf.value, l.quantity), l.(restocked := true))
    else (inv, l.(restocked := false))
  }

  /** A receipt, line by line. */
  function ReceiveLines(items: seq<Item>, inv: Inventory, r: nat, restock: set<nat>, lines: seq<ReturnLine>)
    : (done: (Inventory, seq<ReturnLine>))
    ensures done.0.counters.Keys == inv.counters.Keys && |done.1| == |lines|
    ensures forall k | 0 <= k < |lines| ::
              done.1[k] == lines[k].(restocked := k in restock && ShelfFor(items, lines[k]).Some?)
  {
    if lines == [] then (inv, [])
    else
      var n := |lines| - 1;
      var (before, judged) := ReceiveLines(items, inv, r, restock, lines[..n]);
      var (after, line) := Judged(items, before, r, n in restock, lines[n]);
      (after, judged + [line])
  }

  /** Whether a step on a request gets past its guard, which only looks at what the caller holds. */
  predicate Passes(step: Step) {
    match step
    case Review(_, seen, _) => seen == Requested
    case Receive(_, seen, _) => seen == Approved
    case StartRefund(_, seen, accepted, _) => seen == Received && accepted
    case LinkRefund(_, _) => true
    case SettleRefund(_, _, known, result) => result != P.Initiated && known != result
    case _ => false
  }

  predicate OnRequest(o: Office, step: Step) {
    && !step.Submit? && !step.Elsewhere? && step.request < |o.requests|
    && (step.SettleRefund? ==> step.refund < |o.requests[step.request].refunds|)
  }

  /** A refund outcome reaching the request behind it, whatever its status. */
  function AfterOutcome(status: Status, outcome: P.RefundStatus): Status {
    match outcome
    case Initiated => status
    case Processed => Refunded
    case Bounced => Received
  }

  function Outcome(outcome: Option<P.RefundStatus>): P.RefundStatus {
    if outcome.Some? then outcome.value else P.Initiated
  }

  /** The status a step that passes leaves. */
  function StatusAfter(status: Status, step: Step): Status
    requires !step.Submit? && !step.Elsewhere?
  {
    match step
    case Review(_, _, verdict) => verdict.Status()
    case Receive(_, _, _) => Received
    // whatever the refund did to the request on the spot is overwritten
    case StartRefund(_, _, _, _) => RefundInitiated
    case LinkRefund(_, outcome) => AfterOutcome(status, Outcome(outcome))
    case SettleRefund(_, _, _, result) => AfterOutcome(status, result)
  }

  function RefundsAfter(refunds: seq<P.RefundStatus>, step: Step): seq<P.RefundStatus>
    requires step.SettleRefund? ==> step.refund < |refunds|
  {
    match step
    case StartRefund(_, _, _, outcome) => refunds + [Outcome(outcome)]
    case LinkRefund(_, outcome) => refunds + [Outcome(outcome)]
    case SettleRefund(_, k, _, result) => refunds[k := result]
    case _ => refunds
  }

  function Do(o: Office, step: Step): Office
    requires Valid(o)
  {
    if step.Submit? then
      if !Accepts(o.items, step) then o
      else o.(requests := o.requests + [Request(step.order, LinesFor(step.asks), Requested, [])])
    else if step.Elsewhere? then
      if step.target !in o.inventory.counters || step.kind == Returned || step.source.OfReturn? then o
      else o.(inventory := Post(o.inventory, step.kind, step.source, step.target, step.counter))
    else if !OnRequest(o, step) || !Passes(step) then o
    else
      var r := step.request;
      var q := o.requests[r];
      var (inv, lines) :=
        if step.Receive? then ReceiveLines(o.items, o.inventory, r, step.restock, q.lines) else (o.inventory, q.lines);
      Office(o.items,
             o.requests[r := Request(q.order, lines, StatusAfter(q.status, step), RefundsAfter(q.refunds, step))],
             inv)
  }

  lemma DoValid(o: Office, step: Step)
    requires Valid(o)
    ensures Valid(Do(o, step)) && Do(o, step).items == o.items
  {
    var o' := Do(o, step);
    forall r, k | 0 <= r < |o'.requests| && 0 <= k < |o'.requests[r].lines|
      ensures var l := o'.requests[r].lines[k];
              l.item < |o.items| && l.quantity > 0 && (l.restocked ==> o.items[l.item].Shelf().Some?)
    {
      if r < |o.requests| {
        assert o.requests[r] in o.requests;
        assert o.requests[r].lines[k] in o.requests[r].lines;
      } else {
        assert AskIsFine(o.items, step.order, step.asks[k], step.left[k]);
      }
    }
  }

  // ----- the bound on what is claimed -----

  ghost predicate Within(o: Office) {
    forall i: nat | i < |o.items| :: Claimed(o.requests, i) <= o.items[i].quantity
  }

  lemma {:induction false} ClaimReplaced(requests: seq<Request>, r: nat, q: Request, item: nat)
    requires r < |requests|
    ensures ClaimOf(requests[r], item) <= Claimed(requests, item)
    ensures Claimed(requests[r := q], item) == Claimed(requests, item) - ClaimOf(requests[r], item) + ClaimOf(q, item)
  {
    var n := |requests| - 1;
    if r == n {
      assert requests[r := q][..n] == requests[..n];
    } else {
      ClaimReplaced(requests[..n], r, q, item);
      assert requests[r := q][..n] == requests[..n][r := q];
    }
  }

  lemma ClaimAdded(requests: seq<Request>, q: Request, item: nat)
    ensures Claimed(requests + [q], item) == Claimed(requests, item) + ClaimOf(q, item)
  {
  }

  /** An accepted request that claims more of some item than is left of it by now. */
  ghost predicate Overasks(o: Office, step: Step) {
    && Accepts(o.items, step)
    && exists i: nat | i < |o.items| :: Quantity(LinesFor(step.asks), i) > Remaining(o, i)
  }

  /** A step makes a rejected or cancelled request count again. */
  predicate Wakes(o: Office, step: Step) {
    && OnRequest(o, step) && Passes(step)
    && !o.requests[step.request].status.Live() && StatusAfter(o.requests[step.request].status, step).Live()
  }

  /** One whose quantities are no longer left. */
  ghost predicate WakesTooMuch(o: Office, step: Step) {
    Wakes(o, step)
    && exists i: nat | i < |o.items| :: Quantity(o.requests[step.request].lines, i) > Remaining(o, i)
  }

  lemma {:induction false} SameQuantities(a: seq<ReturnLine>, b: seq<ReturnLine>, item: nat)
    requires |a| == |b| && forall k | 0 <= k < |a| :: a[k].item == b[k].item && a[k].quantity == b[k].quantity
    ensures Quantity(a, item) == Quantity(b, item)
  {
    if a != [] {
      SameQuantities(a[..|a| - 1], b[..|b| - 1], item);
    }
  }

  /** How one step moves the claims on one item. */
  lemma ClaimStep(o: Office, step: Step, i: nat)
    requires Valid(o) && i < |o.items|
    ensures var before, after := Claimed(o.requests, i), Claimed(Do(o, step).requests, i);
            if Accepts(o.items, step) then after == before + Quantity(LinesFor(step.asks), i)
            else if Wakes(o, step) then after == before + Quantity(o.requests[step.request].lines, i)
            else after <= before
  {
    if step.Submit? {
      ClaimAdded(o.requests, Request(step.order, LinesFor(step.asks), Requested, []), i);
    } else if OnRequest(o, step) && Passes(step) {
      var q, q' := o.requests[step.request], Do(o, step).requests[step.request];
      SameQuantities(q'.lines, q.lines, i);
      ClaimReplaced(o.requests, step.request, q', i);
    }
  }

  lemma WithinAt(o: Office, step: Step, i: nat)
    requires Valid(o) && Within(o) && i < |o.items|
    ensures Claimed(Do(o, step).requests, i) <= o.items[i].quantity <==>
            !(Accepts(o.items, step) && Quantity(LinesFor(step.asks), i) > Remaining(o, i))
            && !(Wakes(o, step) && Quantity(o.requests[step.request].lines, i) > Remaining(o, i))
  {
    ClaimStep(o, step, i);
  }

  /** The bound survives a step exactly when the step does neither. */
  lemma WithinStep(o: Office, step: Step)
    requires Valid(o) && Within(o)
    ensures Within(Do(o, step)) <==> !Overasks(o, step) && !WakesTooMuch(o, step)
  {
    DoValid(o, step);
    forall i: nat | i < |o.items| {
      WithinAt(o, step, i);
    }
  }

  /** The caller read what is really left, for every line. */
  predicate ReadsTrue(o: Office, step: Step) {
    step.Submit? && |step.left| == |step.asks|
    && forall k | 0 <= k < |step.asks| && step.asks[k].item < |o.items| ::
         step.left[k] == Remaining(o, step.asks[k].item)
  }

  predicate NamesOnce(asks: seq<Ask>) {
    forall j, k | 0 <= j < k < |asks| :: asks[j].item != asks[k].item
  }

  /** Naming each item once, on quantities that are still true, is enough: then no accepted request overasks. */
  lemma NamingItemsOnceIsEnough(o: Office, step: Step)
    requires Valid(o) && Within(o) && ReadsTrue(o, step) && NamesOnce(step.asks)
    ensures !Overasks(o, step)
  {
    if Accepts(o.items, step) {
      forall i: nat | i < |o.items|
        ensures Quantity(LinesFor(step.asks), i) <= Remaining(o, i)
      {
        assert forall k | 0 <= k < |step.asks| :: AskIsFine(o.items, step.order, step.asks[k], step.left[k]);
        OneLineEach(o, step.asks, i);
      }
    }
  }

  lemma {:induction false} OneLineEach(o: Office, asks: seq<Ask>, i: nat)
    requires NamesOnce(asks) && i < |o.items| && Remaining(o, i) >= 0
    requires forall k | 0 <= k < |asks| :: asks[k].item < |o.items| && asks[k].quantity <= Remaining(o, asks[k].item)
    ensures Quantity(LinesFor(asks), i) <= Remaining(o, i)
    ensures (forall k | 0 <= k < |asks| :: asks[k].item != i) ==> Quantity(LinesFor(asks), i) == 0
  {
    if asks != [] {
      var n := |asks| - 1;
      assert LinesFor(asks)[..n] == LinesFor(asks[..n]);
      OneLineEach(o, asks[..n], i);
    }
  }

  lemma OneAsk(a: Ask)
    requires a.quantity > 0
    ensures LinesFor([a]) == [ReturnLine(a.item, a.quantity, false)]
    ensures Quantity(LinesFor([a]), a.item) == a.quantity
  {
    assert [ReturnLine(a.item, a.quantity, false)][..0] == [];
  }

  lemma TwoAlike(l: ReturnLine)
    ensures Quantity([l, l], l.item) == 2 * l.quantity
  {
    assert [l, l][..1] == [l] && [l][..0] == [];
    assert Quantity([l], l.item) == l.quantity;
  }

  /** A request for all that is left of one item, on one line or on two. */
  function AskForAll(o: Office, i: nat, lines: nat): Step
    requires i < |o.items|
  {
    var a := Ask(i, Remaining(o, i));
    Submit(o.items[i].order, true, Open, seq(lines, _ => a), seq(lines, _ => Remaining(o, i)))
  }

  /** The same item named on two lines slips past the check: all that is left is asked for twice. */
  lemma TwoLinesSlipPast(o: Office, i: nat)
    requires Valid(o) && Within(o) && i < |o.items| && Remaining(o, i) > 0
    ensures ReadsTrue(o, AskForAll(o, i, 2)) && Overasks(o, AskForAll(o, i, 2))
  {
    var a, l := Ask(i, Remaining(o, i)), ReturnLine(i, Remaining(o, i), false);
    TwoAlike(l);
    assert AskForAll(o, i, 2).asks == [a, a] && LinesFor([a, a]) == [l, l];
  }

  /** Asked once, all that is left of an item is taken, and nothing else. */
  lemma AskingOnceTakesTheRest(o: Office, i: nat)
    requires Valid(o) && Within(o) && i < |o.items| && Remaining(o, i) > 0
    ensures var step := AskForAll(o, i, 1);
            && NamesOnce(step.asks) && ReadsTrue(o, step) && Accepts(o.items, step)
            && Quantity(LinesFor(step.asks), i) == Remaining(o, i)
            && Remaining(Do(o, step), i) == 0
  {
    var step, a := AskForAll(o, i, 1), Ask(i, Remaining(o, i));
    assert step.asks == [a];
    OneAsk(a);
    ClaimStep(o, step, i);
  }

  /**
   Two buyers' tabs: both ask once for all that is left, both having read it before either saved.
   The first is in order; the second claims what is no longer there.
   */
  lemma RacingRequestsSlipPast(o: Office, i: nat)
    requires Valid(o) && Within(o) && i < |o.items| && Remaining(o, i) > 0
    ensures var step := AskForAll(o, i, 1);
            && NamesOnce(step.asks) && ReadsTrue(o, step) && !Overasks(o, step)
            && Valid(Do(o, step)) && Within(Do(o, step)) && Overasks(Do(o, step), step)
            && !Within(Do(Do(o, step), step))
  {
    var step := AskForAll(o, i, 1);
    AskingOnceTakesTheRest(o, i);
    NamingItemsOnceIsEnough(o, step);
    DoValid(o, step);
    WithinStep(o, step);
    assert Overasks(Do(o, step), step);
    WithinStep(Do(o, step), step);
  }

  /** A request that is woken was closed behind its caller's back, or reached by the outcome of a refund. */
  lemma FreshStepsNeverWake(o: Office, step: Step)
    requires Wakes(o, step)
    ensures step.LinkRefund? || step.SettleRefund? || step.seen != o.requests[step.request].status
  {
  }

  // ----- what goes back on the shelf -----

  /** Units of an item put back on the shelf by some lines. */
  function Restocked(lines: seq<ReturnLine>, item: nat): nat {
    if lines == [] then 0
    else
      var n := |lines| - 1;
      Restocked(lines[..n], item) + if lines[n].restocked && lines[n].item == item then lines[n].quantity else 0
  }

  function AllRestocked(requests: seq<Request>, item: nat): nat {
    if requests == [] then 0
    else AllRestocked(requests[..|requests| - 1], item) + Restocked(requests[|requests| - 1].lines, item)
  }

  /** Units some lines put back on one shelf. */
  function RestockedTo(items: seq<Item>, lines: seq<ReturnLine>, t: Target): nat {
    if lines == [] then 0
    else
      var n := |lines| - 1;
      RestockedTo(items, lines[..n], t) + OneRestockedTo(items, lines[n], t)
  }

  function OneRestockedTo(items: seq<Item>, l: ReturnLine, t: Target): nat {
    if l.restocked && l.item < |items| && items[l.item].Shelf() == Some(t) then l.quantity else 0
  }

  function AllRestockedTo(items: seq<Item>, requests: seq<Request>, t: Target): nat {
    if requests == [] then 0
    else AllRestockedTo(items, requests[..|requests| - 1], t) + RestockedTo(items, requests[|requests| - 1].lines, t)
  }

  /** Units the ledger records as returned to one shelf, under one request or, for none given, under any. */
  function ReturnedUnits(ledger: seq<Movement>, request: Option<nat>, t: Target): int {
    if ledger == [] then 0
    else
      var n := |ledger| - 1;
      ReturnedUnits(ledger[..n], request, t) + if IsReturn(ledger[n], request, t) then ledger[n].stockDelta else 0
  }

  predicate IsReturn(m: Movement, request: Option<nat>, t: Target) {
    m.kind == Returned && m.source.OfReturn? && m.target == t && (request == None || request == Some(m.source.request))
  }

  function RestockedUnder(o: Office, request: Option<nat>, t: Target): nat {
    if request.None? then AllRestockedTo(o.items, o.requests, t)
    else if request.value < |o.requests| then RestockedTo(o.items, o.requests[request.value].lines, t)
    else 0
  }

  /** The ledger agrees with the lines, shelf by shelf, for each request and in all. */
  ghost predicate Shelved(o: Office) {
    forall request: Option<nat>, t: Target {:trigger ReturnedUnits(o.inventory.ledger, request, t)} ::
      ReturnedUnits(o.inventory.ledger, request, t) == RestockedUnder(o, request, t)
  }

  predicate SomeRestocked(lines: seq<ReturnLine>) {
    exists l <- lines :: l.restocked
  }

  /** A receipt that gets past its guard for a request already received, and restocked from, before. */
  predicate Redoes(o: Office, step: Step) {
    step.Receive? && OnRequest(o, step) && Passes(step) && SomeRestocked(o.requests[step.request].lines)
  }

  lemma {:induction false} NothingRestocked(items: seq<Item>, lines: seq<ReturnLine>, item: nat, t: Target)
    requires !SomeRestocked(lines)
    ensures Restocked(lines, item) == 0 && RestockedTo(items, lines, t) == 0
  {
    if lines != [] {
      assert lines[|lines| - 1] in lines;
      NothingRestocked(items, lines[..|lines| - 1], item, t);
    }
  }

  /** A restocked line shows on its shelf. */
  lemma {:induction false} SomethingRestocked(items: seq<Item>, lines: seq<ReturnLine>, l: ReturnLine)
    requires l in lines && l.restocked && l.quantity > 0 && l.item < |items| && items[l.item].Shelf().Some?
    ensures RestockedTo(items, lines, items[l.item].Shelf().value) > 0
  {
    var n := |lines| - 1;
    if lines[n] != l {
      SomethingRestocked(items, lines[..n], l);
    }
  }

  lemma PutAwayRow(inv: Inventory, r: nat, shelf: Target, quantity: nat, request: Option<nat>, t: Target)
    requires shelf in inv.counters && quantity > 0
    ensures ReturnedUnits(PutAway(inv, Returned, OfReturn(r), shelf, quantity).ledger, request, t)
            == ReturnedUnits(inv.ledger, request, t)
               + if (request == None || request == Some(r)) && shelf == t then quantity else 0
  {
  }

  lemma RestockedToOneMore(items: seq<Item>, lines: seq<ReturnLine>, l: ReturnLine, t: Target)
    ensures RestockedTo(items, lines + [l], t) == RestockedTo(items, lines, t) + OneRestockedTo(items, l, t)
  {
  }

  /** Lines that ask for something, of shelves that exist. */
  predicate Shelvable(items: seq<Item>, counters: Counters, lines: seq<ReturnLine>) {
    forall l <- lines :: l.quantity > 0 && (ShelfFor(items, l).Some? ==> ShelfFor(items, l).value in counters)
  }

  lemma JudgedRow(items: seq<Item>, inv: Inventory, r: nat, goes: bool, l: ReturnLine, request: Option<nat>, t: Target)
    requires l.quantity > 0 && (ShelfFor(items, l).Some? ==> ShelfFor(items, l).value in inv.counters)
    ensures var (inv', line) := Judged(items, inv, r, goes, l);
            ReturnedUnits(inv'.ledger, request, t)
            == ReturnedUnits(inv.ledger, request, t)
               + if request == None || request == Some(r) then OneRestockedTo(items, line, t) else 0
  {
    var shelf := ShelfFor(items, l);
    if goes && shelf.Some? {
      PutAwayRow(inv, r, shelf.value, l.quantity, request, t);
    }
  }

  /** Receiving writes one row per restocked line, and none for any other request. */
  lemma {:induction false} ReceiveRows(items: seq<Item>, inv: Inventory, r: nat, restock: set<nat>,
                                       lines: seq<ReturnLine>, request: Option<nat>, t: Target)
    requires Shelvable(items, inv.counters, lines)
    ensures var (inv', lines') := ReceiveLines(items, inv, r, restock, lines);
            ReturnedUnits(inv'.ledger, request, t)
            == ReturnedUnits(inv.ledger, request, t)
               + if request == None || request == Some(r) then RestockedTo(items, lines', t) else 0
  {
    if lines != [] {
      var n := |lines| - 1;
      assert lines[n] in lines;
      ReceiveRows(items, inv, r, restock, lines[..n], request, t);
      var (before, judged) := ReceiveLines(items, inv, r, restock, lines[..n]);
      var (after, line) := Judged(items, before, r, n in restock, lines[n]);
      JudgedRow(items, before, r, n in restock, lines[n], request, t);
      RestockedToOneMore(items, judged, line, t);
    }
  }

  lemma {:induction false} RestockReplaced(items: seq<Item>, requests: seq<Request>, r: nat, q: Request, t: Target)
    requires r < |requests|
    ensures AllRestockedTo(items, requests[r := q], t)
            == AllRestockedTo(items, requests, t)
               - RestockedTo(items, requests[r].lines, t) + RestockedTo(items, q.lines, t)
  {
    var n := |requests| - 1;
    if r == n {
      assert requests[r := q][..n] == requests[..n];
    } else {
      RestockReplaced(items, requests[..n], r, q, t);
      assert requests[r := q][..n] == requests[..n][r := q];
    }
  }

  predicate Receives(o: Office, step: Step) {
    step.Receive? && OnRequest(o, step) && Passes(step)
  }

  predicate About(request: Option<nat>, r: nat) {
    request == None || request == Some(r)
  }

  lemma NoReturnRow(ledger: seq<Movement>, m: Movement, request: Option<nat>, t: Target)
    requires m.kind != Returned
    ensures ReturnedUnits(ledger + [m], request, t) == ReturnedUnits(ledger, request, t)
  {
  }

  /** What one step adds to the ledger's returns on one shelf, for one request or all. */
  lemma LedgerStep(o: Office, step: Step, request: Option<nat>, t: Target)
    requires Valid(o)
    ensures ReturnedUnits(Do(o, step).inventory.ledger, request, t)
            == ReturnedUnits(o.inventory.ledger, request, t)
               + if Receives(o, step) && About(request, step.request)
                 then RestockedTo(o.items, Do(o, step).requests[step.request].lines, t) else 0
  {
    if Receives(o, step) {
      var q := o.requests[step.request];
      assert q in o.requests;
      forall l | l in q.lines
        ensures l.quantity > 0 && (ShelfFor(o.items, l).Some? ==> ShelfFor(o.items, l).value in o.inventory.counters)
      {
        assert o.items[l.item] in o.items;
      }
      ReceiveRows(o.items, o.inventory, step.request, step.restock, q.lines, request, t);
    } else if step.Elsewhere? && Do(o, step) != o {
      NoReturnRow(o.inventory.ledger, Do(o, step).inventory.ledger[|o.inventory.ledger|], request, t);
    }
  }

  lemma SubmitRestocksNothing(o: Office, step: Step, request: Option<nat>, t: Target)
    requires Valid(o) && Accepts(o.items, step)
    ensures RestockedUnder(Do(o, step), request, t) == RestockedUnder(o, request, t)
  {
    NothingRestocked(o.items, LinesFor(step.asks), 0, t);
    assert Do(o, step).requests[..|o.requests|] == o.requests;
  }

  lemma RequestStepRestocks(o: Office, step: Step, request: Option<nat>, t: Target)
    requires Valid(o) && OnRequest(o, step) && Passes(step)
    ensures RestockedUnder(Do(o, step), request, t)
            == RestockedUnder(o, request, t)
               + if About(request, step.request)
                 then RestockedTo(o.items, Do(o, step).requests[step.request].lines, t)
                      - RestockedTo(o.items, o.requests[step.request].lines, t) else 0
  {
    RestockReplaced(o.items, o.requests, step.request, Do(o, step).requests[step.request], t);
  }

  /** And what it adds to the restocked lines. */
  lemma LinesStep(o: Office, step: Step, request: Option<nat>, t: Target)
    requires Valid(o)
    ensures RestockedUnder(Do(o, step), request, t)
            == RestockedUnder(o, request, t)
               + if Receives(o, step) && About(request, step.request)
                 then RestockedTo(o.items, Do(o, step).requests[step.request].lines, t)
                      - RestockedTo(o.items, o.requests[step.request].lines, t) else 0
  {
    if Accepts(o.items, step) {
      SubmitRestocksNothing(o, step, request, t);
    } else if OnRequest(o, step) && Passes(step) {
      RequestStepRestocks(o, step, request, t);
    }
  }

  /** Ledger and lines stay in agreement exactly when no received request is received, and restocked, again. */
  lemma ShelvedStep(o: Office, step: Step)
    requires Valid(o) && Shelved(o)
    ensures Shelved(Do(o, step)) <==> !Redoes(o, step)
  {
    var o' := Do(o, step);
    if Redoes(o, step) {
      RedoneIsUnshelved(o, step);
    } else {
      forall request: Option<nat>, t: Target
        ensures ReturnedUnits(o'.inventory.ledger, request, t) == RestockedUnder(o', request, t)
      {
        LedgerStep(o, step, request, t);
        LinesStep(o, step, request, t);
        if Receives(o, step) {
          NothingRestocked(o.items, o.requests[step.request].lines, 0, t);
        }
      }
    }
  }

  lemma RedoneIsUnshelved(o: Office, step: Step)
    requires Valid(o) && Shelved(o) && Redoes(o, step)
    ensures !Shelved(Do(o, step))
  {
    var q := o.requests[step.request];
    var l :| l in q.lines && l.restocked;
    assert q in o.requests;
    var t := o.items[l.item].Shelf().value;
    SomethingRestocked(o.items, q.lines, l);
    LedgerStep(o, step, None, t);
    LinesStep(o, step, None, t);
    assert ReturnedUnits(o.inventory.ledger, None, t) == RestockedUnder(o, None, t);
    assert ReturnedUnits(Do(o, step).inventory.ledger, None, t) != RestockedUnder(Do(o, step), None, t);
  }

  // ----- what is restocked is claimed -----

  /** A request whose lines went back on the shelf still counts against what was bought. */
  ghost predicate Kept(o: Office) {
    forall q <- o.requests :: SomeRestocked(q.lines) ==> q.status.Live()
  }

  /** A rejection or withdrawal that gets past its guard for a request already restocked from. */
  predicate Disowns(o: Office, step: Step) {
    step.Review? && OnRequest(o, step) && Passes(step) && step.verdict != Approve
    && SomeRestocked(o.requests[step.request].lines)
  }

  lemma KeptStep(o: Office, step: Step)
    requires Valid(o) && Kept(o)
    ensures Kept(Do(o, step)) <==> !Disowns(o, step)
  {
    var o' := Do(o, step);
    if Accepts(o.items, step) {
      assert forall q <- o'.requests :: q in o.requests || q == o'.requests[|o.requests|];
      assert !SomeRestocked(o'.requests[|o.requests|].lines);
    } else if OnRequest(o, step) && Passes(step) {
      var q, q' := o.requests[step.request], o'.requests[step.request];
      assert q in o.requests && q' in o'.requests;
      assert forall x <- o'.requests :: x in o.requests || x == q';
    }
  }

  lemma {:induction false} RestockedWithinQuantity(lines: seq<ReturnLine>, item: nat)
    ensures Restocked(lines, item) <= Quantity(lines, item)
  {
    if lines != [] {
      RestockedWithinQuantity(lines[..|lines| - 1], item);
    }
  }

  /** What is restocked of an item never exceeds what is claimed of it. */
  lemma {:induction false} RestockedWithinClaimed(requests: seq<Request>, item: nat)
    requires forall q <- requests :: SomeRestocked(q.lines) ==> q.status.Live()
    ensures AllRestocked(requests, item) <= Claimed(requests, item)
  {
    if requests != [] {
      var n := |requests| - 1;
      assert requests[n] in requests;
      RestockedWithinClaimed(requests[..n], item);
      RestockedWithinQuantity(requests[n].lines, item);
      if !SomeRestocked(requests[n].lines) {
        NothingRestocked([], requests[n].lines, item, OfProduct(0));
      }
    }
  }

  // ----- shelves against items -----

  /** Over the first `n` items, those of one shelf: units put back by some lines. */
  function ByItem(items: seq<Item>, lines: seq<ReturnLine>, t: Target, n: nat): nat
    requires n <= |items|
  {
    if n == 0 then 0
    else ByItem(items, lines, t, n - 1) + if items[n - 1].Shelf() == Some(t) then Restocked(lines, n - 1) else 0
  }

  function AllByItem(items: seq<Item>, requests: seq<Request>, t: Target, n: nat): nat
    requires n <= |items|
  {
    if n == 0 then 0
    else
      var last := if items[n - 1].Shelf() == Some(t) then AllRestocked(requests, n - 1) else 0;
      AllByItem(items, requests, t, n - 1) + last
  }

  /** Units bought of the items of one shelf. */
  function BoughtFor(items: seq<Item>, t: Target, n: nat): nat
    requires n <= |items|
  {
    if n == 0 then 0
    else BoughtFor(items, t, n - 1) + if items[n - 1].Shelf() == Some(t) then items[n - 1].quantity else 0
  }

  lemma {:induction false} ByItemOneMore(items: seq<Item>, lines: seq<ReturnLine>, t: Target, n: nat)
    requires n <= |items| && lines != []
    ensures var m := |lines| - 1;
            ByItem(items, lines, t, n)
            == ByItem(items, lines[..m], t, n) + if lines[m].item < n then OneRestockedTo(items, lines[m], t) else 0
  {
    if n > 0 {
      ByItemOneMore(items, lines, t, n - 1);
    }
  }

  /** Line by line or item by item, a shelf gets the same units back. */
  lemma {:induction false} ShelfIsItsItems(items: seq<Item>, lines: seq<ReturnLine>, t: Target)
    ensures RestockedTo(items, lines, t) == ByItem(items, lines, t, |items|)
  {
    if lines == [] {
      NoLines(items, t, |items|);
    } else {
      ShelfIsItsItems(items, lines[..|lines| - 1], t);
      ByItemOneMore(items, lines, t, |items|);
    }
  }

  lemma {:induction false} NoLines(items: seq<Item>, t: Target, n: nat)
    requires n <= |items|
    ensures ByItem(items, [], t, n) == 0 && AllByItem(items, [], t, n) == 0
  {
    if n > 0 {
      NoLines(items, t, n - 1);
    }
  }

  lemma {:induction false} AllByItemOneMore(items: seq<Item>, requests: seq<Request>, t: Target, n: nat)
    requires n <= |items| && requests != []
    ensures var m := |requests| - 1;
            AllByItem(items, requests, t, n)
            == AllByItem(items, requests[..m], t, n) + ByItem(items, requests[m].lines, t, n)
  {
    if n > 0 {
      AllByItemOneMore(items, requests, t, n - 1);
    }
  }

  lemma {:induction false} AllShelvesAreTheirItems(items: seq<Item>, requests: seq<Request>, t: Target)
    ensures AllRestockedTo(items, requests, t) == AllByItem(items, requests, t, |items|)
  {
    if requests == [] {
      NoLines(items, t, |items|);
    } else {
      AllShelvesAreTheirItems(items, requests[..|requests| - 1], t);
      ShelfIsItsItems(items, requests[|requests| - 1].lines, t);
      AllByItemOneMore(items, requests, t, |items|);
    }
  }

  lemma {:induction false} BoughtCovers(o: Office, t: Target, n: nat)
    requires n <= |o.items| && Within(o) && Kept(o)
    ensures AllByItem(o.items, o.requests, t, n) <= BoughtFor(o.items, t, n)
  {
    if n > 0 {
      BoughtCovers(o, t, n - 1);
      RestockedWithinClaimed(o.requests, n - 1);
    }
  }

  /** With the three in place, the ledger never returns more to a shelf than was bought of its items. */
  lemma LedgerReturnsAtMostBought(o: Office, t: Target)
    requires Within(o) && Kept(o) && Shelved(o)
    ensures ReturnedUnits(o.inventory.ledger, None, t) <= BoughtFor(o.items, t, |o.items|)
  {
    AllShelvesAreTheirItems(o.items, o.requests, t);
    BoughtCovers(o, t, |o.items|);
    assert ReturnedUnits(o.inventory.ledger, None, t) == RestockedUnder(o, None, t);
  }

  // ----- whole runs -----

  ghost function Run(o: Office, steps: seq<Step>): (r: Office)
    requires Valid(o)
    ensures Valid(r) && r.items == o.items
  {
    if steps == [] then o
    else
      var before := Run(o, steps[..|steps| - 1]);
      DoValid(before, steps[|steps| - 1]);
      Do(before, steps[|steps| - 1])
  }

  /** Requests stay within what is left, when they are made and when they are woken. */
  ghost predicate ModestRun(o: Office, steps: seq<Step>)
    requires Valid(o)
  {
    steps == []
    || (ModestRun(o, steps[..|steps| - 1])
        && var before, last := Run(o, steps[..|steps| - 1]), steps[|steps| - 1];
           !Overasks(before, last) && !WakesTooMuch(before, last))
  }

  /** No request is restocked from twice, or closed after it was. */
  ghost predicate TidyRun(o: Office, steps: seq<Step>)
    requires Valid(o)
  {
    steps == []
    || (TidyRun(o, steps[..|steps| - 1])
        && var before, last := Run(o, steps[..|steps| - 1]), steps[|steps| - 1];
           !Redoes(before, last) && !Disowns(before, last))
  }

  ghost predicate Opening(o: Office) {
    Valid(o) && o.requests == [] && o.inventory.ledger == []
  }

  /** Over every modest run, returns never claim more of an item than was bought. */
  lemma {:induction false} ClaimsNeverExceedPurchases(o: Office, steps: seq<Step>)
    requires Opening(o) && ModestRun(o, steps)
    ensures Within(Run(o, steps))
  {
    if steps != [] {
      ClaimsNeverExceedPurchases(o, steps[..|steps| - 1]);
      WithinStep(Run(o, steps[..|steps| - 1]), steps[|steps| - 1]);
    }
  }

  /** Over every tidy run, the ledger's returns are the restocked lines, each written once. */
  lemma {:induction false} ReturnsAreWrittenOnce(o: Office, steps: seq<Step>)
    requires Opening(o) && TidyRun(o, steps)
    ensures Shelved(Run(o, steps)) && Kept(Run(o, steps))
  {
    if steps != [] {
      ReturnsAreWrittenOnce(o, steps[..|steps| - 1]);
      ShelvedStep(Run(o, steps[..|steps| - 1]), steps[|steps| - 1]);
      KeptStep(Run(o, steps[..|steps| - 1]), steps[|steps| - 1]);
    }
  }

  /**
   Over every run that is both, with any other stock movements between: units put back are within
   units claimed, those within what was bought, item by item and on every shelf of the ledger.
   */
  lemma ReturnsNeverExceedPurchases(o: Office, steps: seq<Step>, i: nat, t: Target)
    requires Opening(o) && ModestRun(o, steps) && TidyRun(o, steps) && i < |o.items|
    ensures var o' := Run(o, steps);
            && AllRestocked(o'.requests, i) <= Claimed(o'.requests, i) <= o.items[i].quantity
            && ReturnedUnits(o'.inventory.ledger, None, t) <= BoughtFor(o.items, t, |o.items|)
  {
    ClaimsNeverExceedPurchases(o, steps);
    ReturnsAreWrittenOnce(o, steps);
    RestockedWithinClaimed(Run(o, steps).requests, i);
    LedgerReturnsAtMostBought(Run(o, steps), t);
  }

  // ----- orderly runs -----

  /** Callers hold what is current, name each item once, and link refunds to received requests only. */
  ghost predicate Orderly(o: Office, step: Step) {
    match step
    case Submit(_, _, _, asks, _) => ReadsTrue(o, step) && NamesOnce(asks)
    case Review(r, seen, _) => r < |o.requests| ==> seen == o.requests[r].status
    case Receive(r, seen, _) => r < |o.requests| ==> seen == o.requests[r].status
    case StartRefund(r, seen, _, _) => r < |o.requests| ==> seen == o.requests[r].status
    case LinkRefund(r, _) => r < |o.requests| ==> o.requests[r].status == Received
    case _ => true
  }

  /** Refunds and restocked lines belong to requests that have been received. */
  predicate SettledLate(q: Request) {
    !q.status.PastReceipt() ==> q.refunds == [] && !SomeRestocked(q.lines)
  }

  ghost predicate OrderlyRun(o: Office, steps: seq<Step>)
    requires Valid(o)
  {
    steps == []
    || (OrderlyRun(o, steps[..|steps| - 1]) && Orderly(Run(o, steps[..|steps| - 1]), steps[|steps| - 1]))
  }

  lemma OrderlyStep(o: Office, step: Step)
    requires Valid(o) && Within(o) && Orderly(o, step) && forall q <- o.requests :: SettledLate(q)
    ensures !Overasks(o, step) && !Wakes(o, step) && !Redoes(o, step) && !Disowns(o, step)
    ensures forall q <- Do(o, step).requests :: SettledLate(q)
  {
    var o' := Do(o, step);
    if step.Submit? {
      NamingItemsOnceIsEnough(o, step);
      if Accepts(o.items, step) {
        assert forall q <- o'.requests :: q in o.requests || q == o'.requests[|o.requests|];
        assert !SomeRestocked(o'.requests[|o.requests|].lines);
      }
    } else if OnRequest(o, step) && Passes(step) {
      var q, q' := o.requests[step.request], o'.requests[step.request];
      assert q in o.requests && SettledLate(q);
      assert forall x <- o'.requests :: x in o.requests || x == q';
      assert q.status.PastReceipt() ==> step.StartRefund? || step.LinkRefund? || step.SettleRefund?;
    }
  }

  /** Orderly callers are enough: over any orderly run every bound above holds. */
  lemma {:induction false} OrderlyRunsAreModestAndTidy(o: Office, steps: seq<Step>)
    requires Opening(o) && OrderlyRun(o, steps)
    ensures ModestRun(o, steps) && TidyRun(o, steps)
    ensures forall q <- Run(o, steps).requests :: SettledLate(q)
  {
    if steps != [] {
      var front, last := steps[..|steps| - 1], steps[|steps| - 1];
      OrderlyRunsAreModestAndTidy(o, front);
      ClaimsNeverExceedPurchases(o, front);
      OrderlyStep(Run(o, front), last);
    }
  }

  // ----- an outcome that arrives too early -----

  /**
   A refund the gateway settles on the spot leaves its request at refund
   initiated; further reports of that outcome are duplicates, and from there the
   refund cannot be started again.
   */
  lemma InstantOutcomeIsOverwritten(o: Office, r: nat, outcome: P.RefundStatus)
    requires Valid(o) && r < |o.requests| && o.requests[r].status == Received && outcome != P.Initiated
    ensures var o' := Do(o, StartRefund(r, Received, true, Some(outcome)));
            && Valid(o') && r < |o'.requests| && o'.requests[r].status == RefundInitiated
            && Do(o', SettleRefund(r, |o.requests[r].refunds|, outcome, outcome)) == o'
            && forall accepted, next :: Do(o', StartRefund(r, o'.requests[r].status, accepted, next)) == o'
  {
    DoValid(o, StartRefund(r, Received, true, Some(outcome)));
  }

  /** Left pending instead, the same outcome moves the request on when it arrives. */
  lemma LaterOutcomeCounts(o: Office, r: nat, outcome: P.RefundStatus)
    requires Valid(o) && r < |o.requests| && o.requests[r].status == Received && outcome != P.Initiated
    ensures var o' := Do(o, StartRefund(r, Received, true, None));
            && Valid(o')
            && var end := Do(o', SettleRefund(r, |o.requests[r].refunds|, P.Initiated, outcome));
               r < |end.requests| && end.requests[r].status == if outcome == P.Processed then Refunded else Received
  {
    DoValid(o, StartRefund(r, Received, true, None));
  }
}
