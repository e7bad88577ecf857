/**
 What a payment's event log and status can be relied on for: the log ends in the
 current status, no order is confirmed without a logged capture, and which steps
 move a payment out of a status that is called terminal.
 */
module PaymentLog {
  import opened Wrappers
  import opened Payments
  import opened PaymentRuns
  import Stock
  import Orders
  import AuditTrail

  // ----- the log ends in the status -----

  /** The last event of a payment carries its current status. */
  predicate LoggedAccount(a: Account) {
    a.events != [] && a.events[|a.events| - 1].after == a.row.status
  }

  ghost predicate Logged(d: Desk) {
    forall a <- d.accounts :: LoggedAccount(a)
  }

  ghost predicate LoggedBut(accounts: seq<Account>, p: nat) {
    forall j: nat | j < |accounts| && j != p :: LoggedAccount(accounts[j])
  }

  /** An event logged from a copy with another status: a refund started, not processed at once, or one that bounced. */
  predicate Mislogs(d: Desk, act: Act)
    requires Valid(d) && Ready(d, act)
  {
    match act
    case Repaying(p, copy, amount, _, instant, _) =>
      MayRepay(copy, amount) && instant != Some(Processed) && copy.status != d.accounts[p].row.status
    case Settling(k, seen, copy, outcome, _) =>
      seen != Bounced && outcome == Bounced && copy.status != d.accounts[d.refunds[k].payment].row.status
    case _ => false
  }

  /** With every other row logged, whether all are depends on the one that was written. */
  lemma OneRowLogged(accounts: seq<Account>, p: nat, a: Account)
    requires p < |accounts| && LoggedBut(accounts, p)
    ensures LoggedBut(accounts[p := a], p)
    ensures (forall b <- accounts[p := a] :: LoggedAccount(b)) <==> LoggedAccount(a)
  {
    assert accounts[p := a][p] == a;
  }

  lemma LoggedElsewhere(d: Desk, p: nat)
    requires Logged(d)
    ensures LoggedBut(d.accounts, p)
  {
  }

  lemma ReportLogged(d: Desk, p: nat, copy: Payment, g: GatewayPayment, signature: string, now: nat, fate: Fate)
    requires Valid(d) && Logged(d) && OnCopy(d, p, copy)
    ensures Logged(Report(d, p, copy, g, signature, now, fate).desk)
  {
  }

  /** A bounced refund logs the status of the copy it was settled with; a processed one writes that copy. */
  lemma SettleLogged(d: Desk, k: nat, seen: RefundStatus, copy: Payment, outcome: RefundStatus, fate: Fate)
    requires Valid(d) && OnRefund(d, k, copy) && Settles(seen, outcome)
    requires LoggedBut(d.accounts, d.refunds[k].payment)
    ensures Logged(Settle(d, k, seen, copy, outcome, fate).desk)
            <==> outcome == Processed || copy.status == d.accounts[d.refunds[k].payment].row.status
  {
    var p := d.refunds[k].payment;
    OneRowLogged(d.accounts, p, Settle(d, k, seen, copy, outcome, fate).desk.accounts[p]);
  }

  lemma RepayLogged(d: Desk, p: nat, copy: Payment, amount: int, id: string, instant: Option<RefundStatus>, fate: Fate)
    requires Valid(d) && Logged(d) && OnCopy(d, p, copy) && MayRepay(copy, amount)
    ensures Logged(InitiateRefund(d, p, copy, amount, id, instant, fate).desk)
            <==> instant == Some(Processed) || copy.status == d.accounts[p].row.status
  {
    var started := StartRefund(d, p, copy, amount, id);
    StartRefundValid(d, p, copy, amount, id);
    LoggedElsewhere(d, p);
    OneRowLogged(d.accounts, p, started.accounts[p]);
    if instant.Some? && Settles(Initiated, instant.value) {
      SettleLogged(started, |d.refunds|, Initiated, copy, instant.value, fate);
    }
  }

  /** Every step keeps the log in line with the rows, except exactly those. */
  lemma LoggedStep(d: Desk, step: Step)
    requires Valid(d) && Logged(d)
    ensures Logged(Do(d, step).desk) <==> !Mislogs(d, ActOf(d, step))
  {
    match ActOf(d, step) {
      case Applying(p, copy, g, signature, now, fate) => ReportLogged(d, p, copy, g, signature, now, fate);
      case Settling(k, seen, copy, outcome, fate) =>
        if Settles(seen, outcome) {
          LoggedElsewhere(d, d.refunds[k].payment);
          SettleLogged(d, k, seen, copy, outcome, fate);
        }
      case Repaying(p, copy, amount, id, instant, fate) =>
        if MayRepay(copy, amount) {
          RepayLogged(d, p, copy, amount, id, instant, fate);
        }
      case _ =>
    }
  }

  ghost predicate LoggingRun(d: Desk, steps: seq<Step>)
    requires Valid(d)
  {
    steps == []
    || (LoggingRun(d, steps[..|steps| - 1])
        && var before := DeskRun(d, steps[..|steps| - 1]);
           !Mislogs(before, ActOf(before, steps[|steps| - 1])))
  }

  lemma {:induction false} EveryRunLogged(counters: Stock.Counters, steps: seq<Step>)
    requires LoggingRun(OpeningDesk(counters), steps)
    ensures Logged(DeskRun(OpeningDesk(counters), steps))
  {
    if steps != [] {
      var front := steps[..|steps| - 1];
      EveryRunLogged(counters, front);
      LoggedStep(DeskRun(OpeningDesk(counters), front), steps[|steps| - 1]);
    }
  }

  // ----- no order is confirmed unpaid -----

  /** A change to captured from a known other status: what a report logs, and no start or end of a refund. */
  predicate IsCapture(e: PaymentEvent) {
    e.after == Captured && e.before.Some? && e.before.value != Captured
  }

  predicate WasCaptured(a: Account) {
    exists e <- a.events :: IsCapture(e)
  }

  predicate PaidFor(accounts: seq<Account>, order: nat) {
    exists a <- accounts :: a.row.order == order && WasCaptured(a)
  }

  lemma PaidForStays(before: seq<Account>, after: seq<Account>, order: nat)
    requires Extends(before, after) && PaidFor(before, order)
    ensures PaidFor(after, order)
  {
    var j :| 0 <= j < |before| && before[j].row.order == order && WasCaptured(before[j]);
    var e :| e in before[j].events && IsCapture(e);
    assert e in after[j].events && after[j] in after;
  }

  /** Only a capture confirms an order. */
  lemma ConfirmedStep(s: Orders.Shop, step: Orders.Step, i: nat)
    requires Orders.Valid(s) && i < |Orders.Apply(s, step).orders|
    requires Orders.WasConfirmed(Orders.Apply(s, step).orders[i])
    ensures (i < |s.orders| && Orders.WasConfirmed(s.orders[i])) || step == Orders.CaptureReported(i)
  {
    if Orders.OnAnOrder(step) && step.order == i < |s.orders| {
      var coverable := Stock.Coverable(s.inventory.counters, s.orders[i].lines);
      AuditTrail.DecisionShape(s.orders[i], step, coverable);
      ConfirmedDecision(s.orders[i], step, coverable);
    }
  }

  lemma ConfirmedDecision(o: Orders.Order, step: Orders.Step, coverable: bool)
    requires Orders.WasConfirmed(Orders.Decide(o, step, coverable).order)
    ensures Orders.WasConfirmed(o) || step.CaptureReported?
  {
  }

  lemma {:induction false} ConfirmedRun(s: Orders.Shop, steps: seq<Orders.Step>, i: nat)
    requires Orders.Valid(s) && i < |Orders.Run(s, steps).orders|
    requires Orders.WasConfirmed(Orders.Run(s, steps).orders[i])
    ensures (i < |s.orders| && Orders.WasConfirmed(s.orders[i])) || Orders.CaptureReported(i) in steps
  {
    if steps != [] {
      var front, last := steps[..|steps| - 1], steps[|steps| - 1];
      ConfirmedStep(Orders.Run(s, front), last, i);
      if last != Orders.CaptureReported(i) {
        ConfirmedRun(s, front, i);
      }
    }
  }

  ghost predicate ConfirmedArePaid(d: Desk) {
    forall i: nat | i < |d.shop.orders| && Orders.WasConfirmed(d.shop.orders[i]) :: PaidFor(d.accounts, i)
  }

  /** The only act that takes a capture to the shop logs it on a payment of that order. */
  lemma CaptureIsLogged(d: Desk, act: Act, i: nat)
    requires Valid(d) && Ready(d, act) && Orders.CaptureReported(i) in ShopSteps(d, act)
    ensures PaidFor(Perform(d, act).desk.accounts, i)
  {
    var a := Perform(d, act).desk.accounts[act.payment];
    assert a in Perform(d, act).desk.accounts;
    assert IsCapture(a.events[|a.events| - 1]) && a.events[|a.events| - 1] in a.events;
  }

  lemma ConfirmedArePaidStep(d: Desk, step: Step)
    requires Valid(d) && ConfirmedArePaid(d)
    ensures ConfirmedArePaid(Do(d, step).desk)
  {
    var act := ActOf(d, step);
    var d' := Perform(d, act).desk;
    PerformRefines(d, act);
    PerformExtends(d, act);
    forall i: nat | i < |d'.shop.orders| && Orders.WasConfirmed(d'.shop.orders[i])
      ensures PaidFor(d'.accounts, i)
    {
      ConfirmedRun(d.shop, ShopSteps(d, act), i);
      if Orders.CaptureReported(i) in ShopSteps(d, act) {
        CaptureIsLogged(d, act, i);
      } else {
        PaidForStays(d.accounts, d'.accounts, i);
      }
    }
  }

  /**
   In every run of the desk, an order in a paid status, or with a shipment, has a
   payment of its own that was reported captured: nothing is confirmed, packed or
   shipped unpaid, whatever callers hold and however events race.
   */
  lemma {:induction false} NothingShipsUnpaid(counters: Stock.Counters, steps: seq<Step>)
    ensures var d := DeskRun(OpeningDesk(counters), steps);
            && ConfirmedArePaid(d)
            && forall i: nat |
                 i < |d.shop.orders| && (d.shop.orders[i].status.Paid() || d.shop.orders[i].shipment.Some?) ::
                 PaidFor(d.accounts, i)
  {
    var d := DeskRun(OpeningDesk(counters), steps);
    if steps != [] {
      NothingShipsUnpaid(counters, steps[..|steps| - 1]);
      ConfirmedArePaidStep(DeskRun(OpeningDesk(counters), steps[..|steps| - 1]), steps[|steps| - 1]);
    }
    var shopSteps := EveryDeskRunIsAShopRun(counters, steps);
    forall i: nat | i < |d.shop.orders|
      ensures AuditTrail.Tracked(d.shop.orders[i])
    {
    }
  }

  // ----- terminal statuses -----

  /** A refund of `amount` saved over a copy leaves the payment in this status. */
  function StatusRepaid(copy: Payment, amount: nat): PaymentStatus {
    if copy.refunded + amount >= copy.amount then Refunded else PartiallyRefunded
  }

  /**
   The acts that move payment `p` out of its status: a report its caller's copy does not rule out and
   that names another status, and a refund processed on a copy, unless the payment already stands as
   that copy would leave it.
   */
  predicate Leaves(d: Desk, act: Act, p: nat)
    requires Valid(d) && Ready(d, act) && p < |d.accounts|
  {
    var status := d.accounts[p].row.status;
    match act
    case Applying(q, copy, g, _, _, _) => q == p && g.status != status && !AlreadyApplied(copy, g)
    case Settling(k, seen, copy, outcome, _) =>
      d.refunds[k].payment == p && outcome == Processed && seen != Processed
      && status != StatusRepaid(copy, d.refunds[k].amount)
    case Repaying(q, copy, amount, _, instant, _) =>
      q == p && instant == Some(Processed) && MayRepay(copy, amount) && status != StatusRepaid(copy, amount)
    case _ => false
  }

  lemma SettlementMoves(d: Desk, k: nat, seen: RefundStatus, copy: Payment, outcome: RefundStatus, fate: Fate, p: nat)
    requires Valid(d) && OnRefund(d, k, copy) && p < |d.accounts|
    ensures var d' := Settle(d, k, seen, copy, outcome, fate).desk;
            && p < |d'.accounts|
            && d'.accounts[p].row.status
               == if d.refunds[k].payment == p && outcome == Processed && seen != Processed
                  then StatusRepaid(copy, d.refunds[k].amount) else d.accounts[p].row.status
  {
  }

  lemma RepaymentMoves(d: Desk, p: nat, copy: Payment, amount: nat, id: string, instant: Option<RefundStatus>,
                       fate: Fate, q: nat)
    requires Valid(d) && OnCopy(d, p, copy) && MayRepay(copy, amount) && q < |d.accounts|
    ensures var d' := InitiateRefund(d, p, copy, amount, id, instant, fate).desk;
            && q < |d'.accounts|
            && d'.accounts[q].row.status
               == if p == q && instant == Some(Processed) then StatusRepaid(copy, amount) else d.accounts[q].row.status
  {
    StartRefundValid(d, p, copy, amount, id);
    if instant.Some? {
      SettlementMoves(StartRefund(d, p, copy, amount, id), |d.refunds|, Initiated, copy, instant.value, fate, q);
    }
  }

  /** Exactly those acts move a payment's status, terminal or not: no terminal status is protected from them. */
  lemma TerminalIsNotEnforced(d: Desk, step: Step, p: nat)
    requires Valid(d) && p < |d.accounts|
    ensures p < |Do(d, step).desk.accounts|
    ensures Do(d, step).desk.accounts[p].row.status != d.accounts[p].row.status <==> Leaves(d, ActOf(d, step), p)
  {
    match ActOf(d, step) {
      case Settling(k, seen, copy, outcome, fate) => SettlementMoves(d, k, seen, copy, outcome, fate, p);
      case Repaying(q, copy, amount, id, instant, fate) =>
        if MayRepay(copy, amount) {
          RepaymentMoves(d, q, copy, amount, id, instant, fate, p);
        }
      case _ =>
    }
  }

  /** Payment `p` keeps its status through the whole run, after every step of it. */
  ghost predicate Steady(d: Desk, steps: seq<Step>, p: nat)
    requires Valid(d) && p < |d.accounts|
  {
    steps == []
    || (Steady(d, steps[..|steps| - 1], p)
        && p < |DeskRun(d, steps).accounts|
        && DeskRun(d, steps).accounts[p].row.status == d.accounts[p].row.status)
  }

  /** Some step of the run is one that leaves the status `p` then has. */
  ghost predicate SomeStepLeaves(d: Desk, steps: seq<Step>, p: nat)
    requires Valid(d) && p < |d.accounts|
  {
    steps != []
    && var before := DeskRun(d, steps[..|steps| - 1]);
       SomeStepLeaves(d, steps[..|steps| - 1], p)
       || (p < |before.accounts| && Leaves(before, ActOf(before, steps[|steps| - 1]), p))
  }

  /** Over any run, a payment stands still, whatever status it is in, if and only if none of those steps occurs. */
  lemma {:induction false} SteadyUnlessLeft(d: Desk, steps: seq<Step>, p: nat)
    requires Valid(d) && p < |d.accounts|
    ensures p < |DeskRun(d, steps).accounts|
    ensures Steady(d, steps, p) <==> !SomeStepLeaves(d, steps, p)
    ensures Steady(d, steps, p) ==> DeskRun(d, steps).accounts[p].row.status == d.accounts[p].row.status
  {
    if steps != [] {
      SteadyUnlessLeft(d, steps[..|steps| - 1], p);
      TerminalIsNotEnforced(DeskRun(d, steps[..|steps| - 1]), steps[|steps| - 1], p);
    }
  }

  /** So each terminal status can be left for any other: one fresh report that says so is enough. */
  lemma AnyTerminalStatusCanBeLeft(d: Desk, p: nat, g: GatewayPayment, key: string, now: nat)
    requires Valid(d) && p < |d.accounts| && d.accounts[p].row.status.Terminal()
    requires g.status != d.accounts[p].row.status
    ensures var d' := Do(d, Webhook(key, false, ReportJob(p, d.accounts[p].row, Some(g)), now, Completed)).desk;
            p < |d'.accounts| && d'.accounts[p].row.status == g.status
  {
  }
}
