/**
 Racing reports of one capture, and what idempotence does and does not cover.

 Client callbacks, webhook deliveries and admin reconciles may all report the
 same captured payment, in any number and order, from fresh rows or from copies
 loaded before any of them landed, and the pipeline each schedules may complete,
 be interrupted or be lost. The payment ends captured if any of them lands; the
 lemmas say exactly when its order hears of it.
 */
module Confluence {
  import opened Wrappers
  import opened Payments
  import opened PaymentRuns
  import Orders
  import Stock

  /**
   One sighting of the gateway's state, and what becomes of its pipeline. A `stale` caller still holds
   the row as it first was. A delivery reads its key's row as it starts, unless it has done so before
   the race, `known` being what it read.
   */
  datatype Sighting =
    | ByCallback(stale: bool, fate: Fate, signature: string, now: nat)
    | ByWebhook(key: string, known: Option<bool>, stale: bool, fate: Fate, now: nat)
    | ByReconcile(stale: bool, fate: Fate, now: nat)

  /** The step a sighting takes at `d`, in a race that began at `d0`. */
  function StepFor(d0: Desk, d: Desk, p: nat, s: Sighting, g: GatewayPayment): Step
    requires Valid(d0) && Valid(d) && p < |d0.accounts| && p < |d.accounts|
  {
    var from := if s.stale then d0 else d;
    var copy := from.accounts[p].row;
    match s
    case ByCallback(_, fate, signature, now) => Callback(p, copy, copy.gatewayOrderId, true, g, signature, now, fate)
    case ByWebhook(key, known, _, fate, now) =>
      Webhook(key, if known.Some? then known.value else IsProcessed(d.hooks, key),
              Load(from, PaymentNotice(g.gatewayPaymentId, copy.gatewayOrderId), Some(g)), now, fate)
    case ByReconcile(_, fate, now) => Reconcile(p, copy, g, now, fate)
  }

  /** What all parties agree on: everything but who signed and when the capture was first noticed. */
  function Essence(row: Payment): Payment {
    row.(signature := "", capturedAt := None)
  }

  /** The shop once the capture of its order has been handled, in full or up to the interruption; or not at all. */
  function RanShop(shop: Orders.Shop, order: nat, ran: Option<Fate>): Orders.Shop
    requires Orders.Valid(shop) && order < |shop.orders|
  {
    if ran.None? then shop else Orders.Run(shop, CaptureSteps(shop, order, ran.value))
  }

  /** No other payment answers to the gateway's ids. */
  predicate OnlyMatch(accounts: seq<Account>, p: nat, gatewayPaymentId: string, gatewayOrderId: string) {
    && gatewayOrderId != ""
    && forall q | 0 <= q < |accounts| && q != p :: !Matches(accounts[q].row, gatewayPaymentId, gatewayOrderId)
  }

  lemma {:induction false} FindsOnlyMatch(accounts: seq<Account>, p: nat, gatewayPaymentId: string,
                                          gatewayOrderId: string)
    requires p < |accounts| && OnlyMatch(accounts, p, gatewayPaymentId, gatewayOrderId)
    requires accounts[p].row.gatewayOrderId == gatewayOrderId
    ensures Find(accounts, gatewayPaymentId, gatewayOrderId) == Some(p)
  {
    var n := |accounts| - 1;
    if p != n {
      assert forall q | 0 <= q < n :: accounts[..n][q] == accounts[q];
      FindsOnlyMatch(accounts[..n], p, gatewayPaymentId, gatewayOrderId);
    }
  }

  /** The race: an unpaid order, a payment nobody has seen captured, and a gateway that has captured it. */
  ghost predicate Race(d: Desk, p: nat, g: GatewayPayment) {
    && Valid(d) && p < |d.accounts| && g.status == Captured
    && d.accounts[p].row.status != Captured
    && OnlyMatch(d.accounts, p, g.gatewayPaymentId, d.accounts[p].row.gatewayOrderId)
    && d.accounts[p].row.order < |d.shop.orders|
    && d.shop.orders[d.accounts[p].row.order].status == Orders.AwaitingPayment
  }

  /** A sighting that gets as far as applying the report: not a spent key, not a payment the gateway never saw. */
  predicate Lands(d0: Desk, p: nat, s: Sighting)
    requires p < |d0.accounts|
  {
    match s
    case ByCallback(_, _, _, _) => true
    case ByWebhook(key, known, _, _, _) => if known.Some? then !known.value else !IsProcessed(d0.hooks, key)
    case ByReconcile(_, _, _) => d0.accounts[p].row.gatewayPaymentId != ""
  }

  /** Some sighting has landed. */
  predicate Landed(d0: Desk, p: nat, sightings: seq<Sighting>)
    requires p < |d0.accounts|
  {
    sightings != []
    && (Landed(d0, p, sightings[..|sightings| - 1]) || Lands(d0, p, sightings[|sightings| - 1]))
  }

  /** The `n`-th sighting takes the capture to the shop: it lands on a row not yet captured, and is not lost. */
  predicate Reaches(d0: Desk, p: nat, sightings: seq<Sighting>, n: nat)
    requires p < |d0.accounts| && n < |sightings|
  {
    var s := sightings[n];
    Lands(d0, p, s) && s.fate != Lost && (s.stale || !Landed(d0, p, sightings[..n]))
  }

  /** What became of the first pipeline that reached the shop, if any did. */
  function Ran(d0: Desk, p: nat, sightings: seq<Sighting>): Option<Fate>
    requires p < |d0.accounts|
  {
    if sightings == [] then None
    else
      var n := |sightings| - 1;
      var before := Ran(d0, p, sightings[..n]);
      if before.None? && Reaches(d0, p, sightings, n) then Some(sightings[n].fate) else before
  }

  /** Some pipeline ran exactly when some sighting reaches the shop; what ran first is what the first of them did. */
  lemma {:induction false} RanIsTheFirst(d0: Desk, p: nat, sightings: seq<Sighting>)
    requires p < |d0.accounts|
    ensures Ran(d0, p, sightings).Some? <==> exists n | 0 <= n < |sightings| :: Reaches(d0, p, sightings, n)
    ensures Ran(d0, p, sightings).Some? ==>
              exists n | 0 <= n < |sightings| ::
                && Reaches(d0, p, sightings, n) && Ran(d0, p, sightings).value == sightings[n].fate
                && forall m | 0 <= m < n :: !Reaches(d0, p, sightings, m)
  {
    if sightings != [] {
      var n := |sightings| - 1;
      RanIsTheFirst(d0, p, sightings[..n]);
      forall m | 0 <= m < n
        ensures Reaches(d0, p, sightings[..n], m) == Reaches(d0, p, sightings, m)
      {
        assert sightings[..n][..m] == sightings[..m];
      }
    }
  }

  lemma SightingKeepsRows(d0: Desk, d: Desk, p: nat, s: Sighting, g: GatewayPayment)
    requires Valid(d0) && Valid(d) && p < |d0.accounts| && p < |d.accounts|
    ensures var d' := Do(d, StepFor(d0, d, p, s, g)).desk; Valid(d') && |d'.accounts| == |d.accounts|
  {
    var step := StepFor(d0, d, p, s, g);
    DoValid(d, step);
    PerformExtends(d, ActOf(d, step));
  }

  ghost function DeliverAll(d0: Desk, p: nat, sightings: seq<Sighting>, g: GatewayPayment): (r: Desk)
    requires Valid(d0) && p < |d0.accounts|
    ensures Valid(r) && |r.accounts| == |d0.accounts|
  {
    if sightings == [] then d0
    else
      var n := |sightings| - 1;
      var before := DeliverAll(d0, p, sightings[..n], g);
      SightingKeepsRows(d0, before, p, sightings[n], g);
      Do(before, StepFor(d0, before, p, sightings[n], g)).desk
  }

  /** Only the event log and the dedupe table have moved, or the capture is applied and `ran` is what the shop saw. */
  ghost predicate Stage(d0: Desk, d: Desk, p: nat, g: GatewayPayment, applied: bool, ran: Option<Fate>)
    requires Race(d0, p, g)
  {
    var first := d0.accounts[p].row;
    && Valid(d) && |d.accounts| == |d0.accounts| && d.refunds == d0.refunds
    && ran != Some(Lost) && d.shop == RanShop(d0.shop, first.order, ran)
    && (forall q | 0 <= q < |d.accounts| && q != p :: d.accounts[q] == d0.accounts[q])
    && if applied then Essence(d.accounts[p].row) == Essence(Reported(first, g, "", 0))
       else
         && ran.None? && d.accounts[p].row == first
         && (forall key :: IsProcessed(d.hooks, key) <==> IsProcessed(d0.hooks, key))
  }

  /** Handling a capture a second time changes nothing: the order is no longer awaiting payment. */
  lemma PaidOnce(shop: Orders.Shop, order: nat, ran: Fate, again: Fate)
    requires Orders.Valid(shop) && order < |shop.orders| && shop.orders[order].status == Orders.AwaitingPayment
    requires ran != Lost
    ensures var shop' := RanShop(shop, order, Some(ran));
            && order < |shop'.orders| && shop'.orders[order].status == Orders.PaymentConfirmed
            && Orders.Run(shop', CaptureSteps(shop', order, again)) == shop'
  {
    CapturePipeline(shop, order, ran);
    CapturedOrder(shop, order);
    OpenedOrder(Orders.Apply(shop, Orders.CaptureReported(order)), order);
  }

  /** The two halves of a pipeline that is not lost: the order is confirmed, and then its shipment opened. */
  lemma CapturePipeline(shop: Orders.Shop, order: nat, fate: Fate)
    requires Orders.Valid(shop) && order < |shop.orders| && shop.orders[order].status == Orders.AwaitingPayment
    requires fate != Lost
    ensures var confirmed := Orders.Apply(shop, Orders.CaptureReported(order));
            Orders.Run(shop, CaptureSteps(shop, order, fate))
            == if fate == Completed then Orders.Apply(confirmed, Orders.OpenShipment(order)) else confirmed
  {
    OneStepRun(shop, Orders.CaptureReported(order));
    TwoStepRun(shop, Orders.CaptureReported(order), Orders.OpenShipment(order));
  }

  lemma TwoStepRun(shop: Orders.Shop, a: Orders.Step, b: Orders.Step)
    requires Orders.Valid(shop)
    ensures Orders.Run(shop, [a, b]) == Orders.Apply(Orders.Apply(shop, a), b)
  {
    OneStepRun(shop, a);
    assert [a, b] == [a] + [b];
    Orders.RunOneMore(shop, [a], b);
  }

  lemma CapturedOrder(shop: Orders.Shop, order: nat)
    requires Orders.Valid(shop) && order < |shop.orders| && shop.orders[order].status == Orders.AwaitingPayment
    ensures var shop' := Orders.Apply(shop, Orders.CaptureReported(order));
            && order < |shop'.orders| && Orders.WasConfirmed(shop'.orders[order])
            && shop'.orders[order] == Orders.SetStatus(shop.orders[order], Orders.PaymentConfirmed)
  {
    var o := Orders.SetStatus(shop.orders[order], Orders.PaymentConfirmed);
    assert o.history[|o.history| - 1] in o.history;
  }

  lemma OpenedOrder(shop: Orders.Shop, order: nat)
    requires Orders.Valid(shop) && order < |shop.orders| && Orders.WasConfirmed(shop.orders[order])
    ensures var shop' := Orders.Apply(shop, Orders.OpenShipment(order));
            && order < |shop'.orders| && shop'.orders[order].shipment.Some?
            && shop'.orders[order] == shop.orders[order].(shipment := shop'.orders[order].shipment)
  {
  }

  lemma OneStepRun(shop: Orders.Shop, step: Orders.Step)
    requires Orders.Valid(shop)
    ensures Orders.Run(shop, [step]) == Orders.Apply(shop, step)
  {
    assert [] + [step] == [step];
    Orders.RunOneMore(shop, [], step);
  }

  /** What has run after one more report over `copy`. */
  function RanAfter(ran: Option<Fate>, copy: Payment, fate: Fate): Option<Fate> {
    if ran.None? && copy.status != Captured && fate != Lost then Some(fate) else ran
  }

  lemma ReportStage(d0: Desk, d: Desk, p: nat, g: GatewayPayment, applied: bool, ran: Option<Fate>, copy: Payment,
                    signature: string, now: nat, fate: Fate)
    requires Race(d0, p, g) && Stage(d0, d, p, g, applied, ran)
    requires copy == d0.accounts[p].row || copy == d.accounts[p].row
    ensures OnCopy(d, p, copy)
    ensures Stage(d0, Report(d, p, copy, g, signature, now, fate).desk, p, g, true, RanAfter(ran, copy, fate))
  {
    assert d0.accounts[p] in d0.accounts;
    assert d.accounts[p] in d.accounts;
    if ran.Some? {
      PaidOnce(d0.shop, d0.accounts[p].row.order, ran.value, fate);
    }
    ReportValid(d, p, copy, g, signature, now, fate);
    if applied && copy == d.accounts[p].row {
      assert AlreadyApplied(copy, g);
    }
  }

  /** What a delivery loads, fresh or stale: the one payment with the gateway's ids. */
  lemma LoadsThePayment(d0: Desk, d: Desk, p: nat, g: GatewayPayment, applied: bool, ran: Option<Fate>, stale: bool)
    requires Race(d0, p, g) && Stage(d0, d, p, g, applied, ran)
    ensures var copy := (if stale then d0 else d).accounts[p].row;
            && OnCopy(d, p, copy) && copy.gatewayOrderId == d0.accounts[p].row.gatewayOrderId
            && Load(if stale then d0 else d, PaymentNotice(g.gatewayPaymentId, copy.gatewayOrderId), Some(g))
               == ReportJob(p, copy, Some(g))
  {
    var orderId := d0.accounts[p].row.gatewayOrderId;
    FindsOnlyMatch(d0.accounts, p, g.gatewayPaymentId, orderId);
    FindsOnlyMatch(d.accounts, p, g.gatewayPaymentId, orderId);
  }

  /** A delivery that holds rows from before the race has read its key before, too: it reads the key first. */
  predicate ReadsInOrder(s: Sighting) {
    s.ByWebhook? && s.stale ==> s.known.Some?
  }

  /** What a sighting comes down to: applying the report over one of the two copies, if it lands. */
  lemma SightingAct(d0: Desk, d: Desk, p: nat, g: GatewayPayment, applied: bool, ran: Option<Fate>, s: Sighting)
    requires Race(d0, p, g) && Stage(d0, d, p, g, applied, ran) && ReadsInOrder(s)
    ensures var act := ActOf(d, StepFor(d0, d, p, s, g));
            && (act.Applying? || act.Idle?)
            && (act.Applying? ==> act.payment == p && act.g == g && act.fate == s.fate
                                  && act.copy == (if s.stale then d0 else d).accounts[p].row)
            && (if act.Applying? then Lands(d0, p, s) || (applied && !s.stale)
                else !Lands(d0, p, s) || (applied && !s.stale))
  {
    LoadsThePayment(d0, d, p, g, applied, ran, s.stale);
    assert !applied ==> d.accounts[p].row == d0.accounts[p].row;
  }

  /** One more sighting, fresh or stale, first or late, whatever becomes of its pipeline. */
  lemma StageStep(d0: Desk, d: Desk, p: nat, g: GatewayPayment, applied: bool, ran: Option<Fate>, s: Sighting)
    requires Race(d0, p, g) && Stage(d0, d, p, g, applied, ran) && ReadsInOrder(s)
    ensures var reaches := Lands(d0, p, s) && s.fate != Lost && (s.stale || !applied);
            Stage(d0, Do(d, StepFor(d0, d, p, s, g)).desk, p, g, applied || Lands(d0, p, s),
                  if ran.None? && reaches then Some(s.fate) else ran)
  {
    var step := StepFor(d0, d, p, s, g);
    var act := ActOf(d, step);
    SightingAct(d0, d, p, g, applied, ran, s);
    DoValid(d, step);
    if act.Applying? {
      ReportStage(d0, d, p, g, applied, ran, act.copy, act.signature, act.now, act.fate);
      assert applied ==> d.accounts[p].row.status == Captured by {
        assert applied ==> Essence(d.accounts[p].row).status == d.accounts[p].row.status;
      }
    }
  }

  /**
   Confluence: any mix and order of callbacks, deliveries and reconciles that see the same capture
   applies it to the payment exactly once if any of them lands, and not at all otherwise; its order
   sees the first pipeline that reaches the shop, and nothing else; other payments and the refunds
   are untouched.
   */
  lemma {:induction false} AnyOrderIsOnce(d0: Desk, p: nat, sightings: seq<Sighting>, g: GatewayPayment)
    requires Race(d0, p, g) && forall s <- sightings :: ReadsInOrder(s)
    ensures Stage(d0, DeliverAll(d0, p, sightings, g), p, g, Landed(d0, p, sightings), Ran(d0, p, sightings))
  {
    if sightings != [] {
      var n := |sightings| - 1;
      assert sightings[n] in sightings;
      AnyOrderIsOnce(d0, p, sightings[..n], g);
      StageStep(d0, DeliverAll(d0, p, sightings[..n], g), p, g, Landed(d0, p, sightings[..n]),
                Ran(d0, p, sightings[..n]), sightings[n]);
    }
  }

  /** With no pipeline cut short, the first sighting to land reaches the shop and completes. */
  lemma {:induction false} LandingCompletes(d0: Desk, p: nat, sightings: seq<Sighting>)
    requires p < |d0.accounts| && forall s <- sightings :: s.fate == Completed
    ensures Ran(d0, p, sightings) == if Landed(d0, p, sightings) then Some(Completed) else None
  {
    if sightings != [] {
      assert sightings[|sightings| - 1] in sightings;
      LandingCompletes(d0, p, sightings[..|sightings| - 1]);
    }
  }

  /** Hence any two mixes with something landing and nothing cut short agree, and the order is confirmed. */
  lemma AnyTwoMixesAgree(d0: Desk, p: nat, a: seq<Sighting>, b: seq<Sighting>, g: GatewayPayment)
    requires Race(d0, p, g) && forall s <- a + b :: ReadsInOrder(s) && s.fate == Completed
    requires Landed(d0, p, a) && Landed(d0, p, b)
    ensures var order := d0.accounts[p].row.order;
            var x, y := DeliverAll(d0, p, a, g), DeliverAll(d0, p, b, g);
            && x.shop == y.shop && x.refunds == y.refunds
            && Essence(x.accounts[p].row) == Essence(y.accounts[p].row)
            && x.accounts[p].row.status == Captured
            && order < |x.shop.orders| && x.shop.orders[order].status == Orders.PaymentConfirmed
  {
    assert forall s <- a :: s in a + b;
    assert forall s <- b :: s in a + b;
    AnyOrderIsOnce(d0, p, a, g);
    AnyOrderIsOnce(d0, p, b, g);
    LandingCompletes(d0, p, a);
    LandingCompletes(d0, p, b);
    PaidOnce(d0.shop, d0.accounts[p].row.order, Completed, Completed);
    var x := DeliverAll(d0, p, a, g);
    assert Essence(x.accounts[p].row).status == x.accounts[p].row.status;
  }

  // ----- what idempotence does not cover -----

  /** The order at the end of a race. */
  lemma RanShopOrder(shop: Orders.Shop, order: nat, ran: Option<Fate>)
    requires Orders.Valid(shop) && order < |shop.orders| && ran != Some(Lost)
    requires shop.orders[order].status == Orders.AwaitingPayment && shop.orders[order].shipment.None?
    ensures var shop' := RanShop(shop, order, ran);
            && order < |shop'.orders|
            && shop'.orders[order].status == (if ran.Some? then Orders.PaymentConfirmed else Orders.AwaitingPayment)
            && (shop'.orders[order].shipment.Some? <==> ran == Some(Completed))
  {
    if ran.Some? {
      CapturePipeline(shop, order, ran.value);
      CapturedOrder(shop, order);
      OpenedOrder(Orders.Apply(shop, Orders.CaptureReported(order)), order);
    }
  }

  /**
   What the order sees of a race, exactly: it is confirmed if and only if some sighting lands on a row
   not yet captured, being first or stale, and its pipeline is not lost; and it has its shipment if and
   only if the first that does so completes.
   */
  lemma ConfirmedIffReached(d0: Desk, p: nat, sightings: seq<Sighting>, g: GatewayPayment)
    requires Race(d0, p, g) && forall s <- sightings :: ReadsInOrder(s)
    requires d0.shop.orders[d0.accounts[p].row.order].shipment.None?
    ensures var order := d0.accounts[p].row.order;
            var d := DeliverAll(d0, p, sightings, g);
            && order < |d.shop.orders|
            && (d.shop.orders[order].status == Orders.PaymentConfirmed
                <==> exists n | 0 <= n < |sightings| :: Reaches(d0, p, sightings, n))
            && (d.shop.orders[order].shipment.Some?
                <==> exists n | 0 <= n < |sightings| ::
                       && Reaches(d0, p, sightings, n) && sightings[n].fate == Completed
                       && forall m | 0 <= m < n :: !Reaches(d0, p, sightings, m))
  {
    AnyOrderIsOnce(d0, p, sightings, g);
    RanIsTheFirst(d0, p, sightings);
    RanShopOrder(d0.shop, d0.accounts[p].row.order, Ran(d0, p, sightings));
    if Ran(d0, p, sightings).Some? {
      var k :| 0 <= k < |sightings| && Reaches(d0, p, sightings, k)
               && Ran(d0, p, sightings).value == sightings[k].fate
               && forall m | 0 <= m < k :: !Reaches(d0, p, sightings, m);
      forall n | 0 <= n < |sightings| && Reaches(d0, p, sightings, n)
        ensures k <= n
      {
      }
    }
  }

  /**
   A lost pipeline is made good only by a stale caller: if the first sighting lands and is lost, the
   order is confirmed if and only if a later one that still holds the row from before lands and is not
   lost. Callers that load the payment after the loss count as already applied, however many there are.
   */
  lemma ALostPipelineStaysLost(d0: Desk, p: nat, sightings: seq<Sighting>, g: GatewayPayment)
    requires Race(d0, p, g) && forall s <- sightings :: ReadsInOrder(s)
    requires sightings != [] && Lands(d0, p, sightings[0]) && sightings[0].fate == Lost
    ensures var d := DeliverAll(d0, p, sightings, g);
            && d.accounts[p].row.status == Captured
            && d0.accounts[p].row.order < |d.shop.orders|
            && (d.shop.orders[d0.accounts[p].row.order].status == Orders.PaymentConfirmed
                <==> exists n | 0 < n < |sightings| ::
                       Lands(d0, p, sightings[n]) && sightings[n].stale && sightings[n].fate != Lost)
  {
    AnyOrderIsOnce(d0, p, sightings, g);
    RanIsTheFirst(d0, p, sightings);
    forall n | 0 < n <= |sightings|
      ensures Landed(d0, p, sightings[..n])
    {
      LandedEarly(d0, p, sightings, n);
    }
    assert sightings[..|sightings|] == sightings;
    var d := DeliverAll(d0, p, sightings, g);
    assert Essence(d.accounts[p].row).status == d.accounts[p].row.status;
    var ran := Ran(d0, p, sightings);
    if ran.Some? {
      PaidOnce(d0.shop, d0.accounts[p].row.order, ran.value, Completed);
    }
    forall n | 0 <= n < |sightings|
      ensures Reaches(d0, p, sightings, n)
              <==> 0 < n && Lands(d0, p, sightings[n]) && sightings[n].stale && sightings[n].fate != Lost
    {
    }
  }

  lemma {:induction false} LandedEarly(d0: Desk, p: nat, sightings: seq<Sighting>, n: nat)
    requires p < |d0.accounts| && 0 < n <= |sightings| && Lands(d0, p, sightings[0])
    ensures Landed(d0, p, sightings[..n])
  {
    if n > 1 {
      LandedEarly(d0, p, sightings, n - 1);
      assert sightings[..n][..n - 1] == sightings[..n - 1];
    }
  }

  /** The first delivery, its pipeline lost: the row is captured, the shop unmoved, the key still open. */
  lemma LosingThePipeline(d: Desk, p: nat, g: GatewayPayment, key: string, now: nat)
    requires Race(d, p, g) && !IsProcessed(d.hooks, key)
    ensures var row := d.accounts[p].row;
            var job := Load(d, PaymentNotice(g.gatewayPaymentId, row.gatewayOrderId), Some(g));
            var lost := Do(d, Webhook(key, false, job, now, Lost));
            && lost.raised && lost.desk.shop == d.shop && !IsProcessed(lost.desk.hooks, key)
            && |lost.desk.accounts| == |d.accounts| && AlreadyApplied(lost.desk.accounts[p].row, g)
            && OnlyMatch(lost.desk.accounts, p, g.gatewayPaymentId, lost.desk.accounts[p].row.gatewayOrderId)
  {
    FindsOnlyMatch(d.accounts, p, g.gatewayPaymentId, d.accounts[p].row.gatewayOrderId);
  }

  /** A capture confirms its order exactly when the order awaits payment; otherwise the payment is captured alone. */
  lemma CaptureConfirmsOnlyWaitingOrders(d: Desk, p: nat, g: GatewayPayment, now: nat)
    requires Valid(d) && p < |d.accounts| && g.status == Captured && d.accounts[p].row.status != Captured
    requires d.accounts[p].row.order < |d.shop.orders|
    ensures var row := d.accounts[p].row;
            var d' := Report(d, p, row, g, "", now, Completed).desk;
            && p < |d'.accounts| && d'.accounts[p].row.status == Captured
            && (d'.shop != d.shop <==> d.shop.orders[row.order].status == Orders.AwaitingPayment)
  {
    var order := d.accounts[p].row.order;
    if d.shop.orders[order].status == Orders.AwaitingPayment {
      PaidOnce(d.shop, order, Completed, Completed);
    }
  }

  /** What the failure pipeline does to the shop: it releases and fails an order still awaiting payment. */
  lemma FailurePipeline(shop: Orders.Shop, order: nat)
    requires Orders.Valid(shop) && order < |shop.orders|
    ensures var o, shop' := shop.orders[order], Orders.Run(shop, FailureSteps(order, Completed));
            && Stock.Known(shop.inventory.counters, o.lines)
            && if o.status == Orders.AwaitingPayment
               then && order < |shop'.orders| && shop'.orders[order].status == Orders.PaymentFailed
                    && shop'.inventory == Stock.PostLines(shop.inventory, Stock.Released, Stock.OfOrder(order), o.lines)
               else shop' == shop
  {
    assert shop.orders[order] in shop.orders;
    OneStepRun(shop, Orders.FailureReported(order));
    var o := shop.orders[order];
    if o.status != Orders.AwaitingPayment {
      assert Orders.OrdersAfter(shop, Orders.FailureReported(order)) == shop.orders;
    }
  }

  lemma RefundPipeline(shop: Orders.Shop, order: nat, full: bool)
    requires Orders.Valid(shop) && order < |shop.orders|
    ensures var shop' := Orders.Run(shop, RefundSteps(order, full, Completed));
            && shop'.inventory == shop.inventory && order < |shop'.orders|
            && shop'.orders[order].status == if full then Orders.Refunded else Orders.PartiallyRefunded
  {
    OneStepRun(shop, Orders.RefundReported(order, full));
  }

  /** A failure reported on a fresh row releases and fails its order exactly when it still awaits payment. */
  lemma FailureReleasesOnlyWaitingOrders(d: Desk, p: nat, g: GatewayPayment, now: nat)
    requires Valid(d) && p < |d.accounts| && g.status == Failed && d.accounts[p].row.status != Failed
    requires d.accounts[p].row.order < |d.shop.orders|
    ensures var order := d.accounts[p].row.order;
            var o := d.shop.orders[order];
            var d' := Report(d, p, d.accounts[p].row, g, "", now, Completed).desk;
            && p < |d'.accounts| && d'.accounts[p].row.status == Failed
            && Stock.Known(d.shop.inventory.counters, o.lines)
            && if o.status == Orders.AwaitingPayment
               then && order < |d'.shop.orders| && d'.shop.orders[order].status == Orders.PaymentFailed
                    && d'.shop.inventory
                       == Stock.PostLines(d.shop.inventory, Stock.Released, Stock.OfOrder(order), o.lines)
               else d'.shop == d.shop
  {
    FailurePipeline(d.shop, d.accounts[p].row.order);
  }

  /** A refund processed on a fresh row makes its order refunded or partly so, as the payment's total then says. */
  lemma RefundMovesItsOrder(d: Desk, k: nat)
    requires Valid(d) && k < |d.refunds| && d.refunds[k].status == Initiated
    requires d.refunds[k].payment < |d.accounts|
    requires d.accounts[d.refunds[k].payment].row.order < |d.shop.orders|
    ensures var p := d.refunds[k].payment;
            var row := d.accounts[p].row;
            var full := row.refunded + d.refunds[k].amount >= row.amount;
            var d' := Settle(d, k, Initiated, row, Processed, Completed).desk;
            && p < |d'.accounts| && row.order < |d'.shop.orders| && d'.shop.inventory == d.shop.inventory
            && d'.shop.orders[row.order].status == (if full then Orders.Refunded else Orders.PartiallyRefunded)
            && d'.accounts[p].row.status == (if full then Refunded else PartiallyRefunded)
  {
    var row := d.accounts[d.refunds[k].payment].row;
    RefundPipeline(d.shop, row.order, Repaid(row, d.refunds[k].amount).refundTotal == Full);
  }

  // ----- deduplication -----

  /** A delivery that dispatches without raising, by what it read of its key. */
  predicate Completes(d: Desk, step: Step)
    requires Valid(d)
  {
    step.Webhook? && !step.processed && !Do(d, step).raised
  }

  /** It read its key as unprocessed before another delivery marked it. */
  predicate Outdated(d: Desk, step: Step) {
    step.Webhook? && !step.processed && IsProcessed(d.hooks, step.key)
  }

  /** The keys whose dispatch completes in the course of a run, in order. */
  ghost function CompletedKeys(d: Desk, steps: seq<Step>): seq<string>
    requires Valid(d)
  {
    if steps == [] then []
    else
      var n := |steps| - 1;
      CompletedKeys(d, steps[..n])
      + if Completes(DeskRun(d, steps[..n]), steps[n]) then [steps[n].key] else []
  }

  /** Some delivery of the run completes on an outdated reading of its key. */
  ghost predicate CompletesOutdated(d: Desk, steps: seq<Step>)
    requires Valid(d)
  {
    steps != []
    && var n := |steps| - 1;
       var before := DeskRun(d, steps[..n]);
       CompletesOutdated(d, steps[..n]) || (Completes(before, steps[n]) && Outdated(before, steps[n]))
  }

  predicate NoneTwice(keys: seq<string>) {
    forall i, j | 0 <= i < j < |keys| :: keys[i] != keys[j]
  }

  lemma HooksStep(d: Desk, step: Step)
    requires Valid(d)
    ensures forall key :: IsProcessed(Do(d, step).desk.hooks, key) <==>
              IsProcessed(d.hooks, key) || (Completes(d, step) && step.key == key)
  {
  }

  /** Keys that completed once each, and had not been processed before. */
  predicate OnceEach(done: seq<string>, hooks: map<string, bool>) {
    NoneTwice(done) && forall key <- done :: !IsProcessed(hooks, key)
  }

  /** One more step of a run, on the keys that have completed and on whether one did on an outdated reading. */
  lemma OneMoreKey(done: seq<string>, opening: map<string, bool>, spent: bool, key: string, completes: bool,
                   amiss: bool)
    requires spent <==> IsProcessed(opening, key) || key in done
    requires OnceEach(done, opening) <==> !amiss
    ensures OnceEach(done + (if completes then [key] else []), opening) <==> !(amiss || (completes && spent))
  {
    var more := done + [key];
    assert forall i | 0 <= i < |done| :: more[i] == done[i];
    assert more[|done|] == key;
    assert forall k :: k in more <==> k in done || k == key;
    assert done + [] == done;
  }

  /** The last step of a run, as the keys see it. */
  lemma LastDelivery(d: Desk, steps: seq<Step>)
    requires Valid(d) && steps != []
    ensures var front, last := steps[..|steps| - 1], steps[|steps| - 1];
            var before := DeskRun(d, front);
            && CompletedKeys(d, steps) == CompletedKeys(d, front) + (if Completes(before, last) then [last.key] else [])
            && (CompletesOutdated(d, steps)
                <==> CompletesOutdated(d, front) || (Completes(before, last) && IsProcessed(before.hooks, last.key)))
  {
  }

  /** The dedupe table says exactly which keys have completed. */
  lemma {:induction false} KeysAreRecorded(d: Desk, steps: seq<Step>, key: string)
    requires Valid(d)
    ensures IsProcessed(DeskRun(d, steps).hooks, key) <==> IsProcessed(d.hooks, key) || key in CompletedKeys(d, steps)
  {
    if steps != [] {
      KeysAreRecorded(d, steps[..|steps| - 1], key);
      HooksStep(DeskRun(d, steps[..|steps| - 1]), steps[|steps| - 1]);
      LastDelivery(d, steps);
    }
  }

  /**
   Deduplication: over any run no key completes twice, or again after having been
   processed, if and only if no delivery completes on an outdated reading of its key.
   */
  lemma {:induction false} KeysCompleteOnce(d: Desk, steps: seq<Step>)
    requires Valid(d)
    ensures OnceEach(CompletedKeys(d, steps), d.hooks) <==> !CompletesOutdated(d, steps)
  {
    if steps != [] {
      var front, last := steps[..|steps| - 1], steps[|steps| - 1];
      var before := DeskRun(d, front);
      var key := if last.Webhook? then last.key else "";
      KeysCompleteOnce(d, front);
      LastDelivery(d, steps);
      KeysAreRecorded(d, front, key);
      OneMoreKey(CompletedKeys(d, front), d.hooks, IsProcessed(before.hooks, key), key,
                 Completes(before, last), CompletesOutdated(d, front));
    }
  }
}
