/**
 Runs of the payment desk, and what carries over from the shop.

 Whatever webhooks, callbacks, reconciles and refunds arrive, on rows however
 old, the shop inside the desk only ever takes steps of `Orders`; so each order
 is sold and restored at most once however many payment attempts it has.
 */
module PaymentRuns {
  import opened Wrappers
  import opened Payments
  import Stock
  import Orders
  import AuditTrail

  lemma SettleValid(d: Desk, k: nat, seen: RefundStatus, copy: Payment, outcome: RefundStatus, fate: Fate)
    requires Valid(d) && OnRefund(d, k, copy)
    ensures Valid(Settle(d, k, seen, copy, outcome, fate).desk)
  {
  }

  lemma ReportValid(d: Desk, p: nat, copy: Payment, g: GatewayPayment, signature: string, now: nat, fate: Fate)
    requires Valid(d) && OnCopy(d, p, copy)
    ensures Valid(Report(d, p, copy, g, signature, now, fate).desk)
  {
  }

  lemma StartRefundValid(d: Desk, p: nat, copy: Payment, amount: nat, id: string)
    requires Valid(d) && p < |d.accounts| && amount > 0
    ensures Valid(StartRefund(d, p, copy, amount, id))
  {
  }

  lemma PerformValid(d: Desk, act: Act)
    requires Valid(d) && Ready(d, act)
    ensures Valid(Perform(d, act).desk)
  {
    match act {
      case Applying(p, copy, g, signature, now, fate) => ReportValid(d, p, copy, g, signature, now, fate);
      case Settling(k, seen, copy, outcome, fate) => SettleValid(d, k, seen, copy, outcome, fate);
      case Repaying(p, copy, amount, id, instant, fate) =>
        if MayRepay(copy, amount) {
          StartRefundValid(d, p, copy, amount, id);
          if instant.Some? {
            SettleValid(StartRefund(d, p, copy, amount, id), |d.refunds|, Initiated, copy, instant.value, fate);
          }
        }
      case _ =>
    }
  }

  /** A desk stays well-formed. */
  lemma DoValid(d: Desk, step: Step)
    requires Valid(d)
    ensures Valid(Do(d, step).desk)
  {
    PerformValid(d, ActOf(d, step));
  }

  ghost function DeskRun(d: Desk, steps: seq<Step>): (r: Desk)
    requires Valid(d)
    ensures Valid(r)
  {
    if steps == [] then d
    else
      var before := DeskRun(d, steps[..|steps| - 1]);
      DoValid(before, steps[|steps| - 1]);
      Do(before, steps[|steps| - 1]).desk
  }

  function OpeningDesk(counters: Stock.Counters): Desk {
    Desk(Orders.Opening(counters), [], [], map[])
  }

  // ----- rows are never lost -----

  /** Rows are only added, keep their keys, and keep their events. */
  predicate Extends(before: seq<Account>, after: seq<Account>) {
    && |before| <= |after|
    && forall j | 0 <= j < |before| :: CopyOf(before[j].row, after[j].row) && before[j].events <= after[j].events
  }

  lemma PerformExtends(d: Desk, act: Act)
    requires Valid(d) && Ready(d, act)
    ensures Extends(d.accounts, Perform(d, act).desk.accounts)
    ensures !act.Attempting? ==> |Perform(d, act).desk.accounts| == |d.accounts|
  {
  }

  lemma PerformKeepsRefunds(d: Desk, act: Act)
    requires Valid(d) && Ready(d, act)
    ensures var refunds := Perform(d, act).desk.refunds;
            |d.refunds| <= |refunds|
            && forall k | 0 <= k < |d.refunds| :: refunds[k] == d.refunds[k].(status := refunds[k].status)
  {
  }

  /** What a webhook loaded stays good to work on, however long it takes and whatever happens meanwhile. */
  lemma {:induction false} LoadedStays(d: Desk, job: Job, steps: seq<Step>)
    requires Valid(d) && Loaded(d, job)
    ensures Loaded(DeskRun(d, steps), job)
  {
    if steps != [] {
      var before, last := DeskRun(d, steps[..|steps| - 1]), steps[|steps| - 1];
      LoadedStays(d, job, steps[..|steps| - 1]);
      PerformExtends(before, ActOf(before, last));
      PerformKeepsRefunds(before, ActOf(before, last));
    }
  }

  // ----- refinement -----

  /** The shop steps an act takes. */
  function ShopSteps(d: Desk, act: Act): seq<Orders.Step>
    requires Valid(d) && Ready(d, act)
  {
    match act
    case Applying(p, copy, g, _, _, fate) =>
      assert d.accounts[p] in d.accounts;
      if AlreadyApplied(copy, g) then [] else ReportSteps(d.shop, copy, g, fate)
    case Settling(k, seen, copy, outcome, fate) =>
      if Settles(seen, outcome) && outcome == Processed
      then RefundSteps(copy.order, Repaid(copy, d.refunds[k].amount).refundTotal == Full, fate) else []
    case Repaying(_, copy, amount, _, instant, fate) =>
      if MayRepay(copy, amount) && instant == Some(Processed)
      then RefundSteps(copy.order, Repaid(copy, amount).refundTotal == Full, fate) else []
    case Shopping(step) => [step]
    case _ => []
  }

  /** Every act of the desk is some steps of the shop. */
  lemma PerformRefines(d: Desk, act: Act)
    requires Valid(d) && Ready(d, act)
    ensures Perform(d, act).desk.shop == Orders.Run(d.shop, ShopSteps(d, act))
  {
    if act.Shopping? {
      Orders.RunOneMore(d.shop, [], act.step);
      assert [] + [act.step] == [act.step];
    }
  }

  /**
   Refinement of whole runs: the shop inside any run of the desk is a run of the
   shop. Hence its audit trails are paths and every order was sold at most once
   and restored at most once, for any mix of attempts, duplicates and races.
   */
  lemma {:induction false} EveryDeskRunIsAShopRun(counters: Stock.Counters, steps: seq<Step>)
    returns (shopSteps: seq<Orders.Step>)
    ensures DeskRun(OpeningDesk(counters), steps).shop == Orders.Run(Orders.Opening(counters), shopSteps)
    ensures AuditTrail.Booked(DeskRun(OpeningDesk(counters), steps).shop)
  {
    if steps == [] {
      shopSteps := [];
    } else {
      var front := steps[..|steps| - 1];
      var before := EveryDeskRunIsAShopRun(counters, front);
      var d := DeskRun(OpeningDesk(counters), front);
      var act := ActOf(d, steps[|steps| - 1]);
      PerformRefines(d, act);
      Orders.RunConcat(Orders.Opening(counters), before, ShopSteps(d, act));
      shopSteps := before + ShopSteps(d, act);
    }
    AuditTrail.EveryRunBooked(counters, shopSteps);
  }
}
