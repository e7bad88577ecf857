/**
 Refund accounting: what a payment says it has refunded against its refund rows,
 and against what was paid.
 */
module RefundAccounting {
  import opened Wrappers
  import opened Payments
  import opened PaymentRuns
  import Stock

  /** Summed amounts of a payment's refunds in one status. */
  function Total(refunds: seq<Refund>, p: nat, status: RefundStatus): nat {
    if refunds == [] then 0
    else Total(refunds[..|refunds| - 1], p, status) + Counted(refunds[|refunds| - 1], p, status)
  }

  function Counted(r: Refund, p: nat, status: RefundStatus): nat {
    if r.payment == p && r.status == status then r.amount else 0
  }

  lemma {:induction false} TotalReplaced(refunds: seq<Refund>, k: nat, r: Refund, p: nat, status: RefundStatus)
    requires k < |refunds|
    ensures Counted(refunds[k], p, status) <= Total(refunds, p, status)
    ensures Total(refunds[k := r], p, status)
            == Total(refunds, p, status) - Counted(refunds[k], p, status) + Counted(r, p, status)
  {
    var n := |refunds| - 1;
    if k == n {
      assert refunds[k := r][..n] == refunds[..n];
    } else {
      TotalReplaced(refunds[..n], k, r, p, status);
      assert refunds[k := r][..n] == refunds[..n][k := r];
    }
  }

  lemma TotalAdded(refunds: seq<Refund>, r: Refund, p: nat, status: RefundStatus)
    ensures Total(refunds + [r], p, status) == Total(refunds, p, status) + Counted(r, p, status)
  {
  }

  lemma {:induction false} NoRefundsNoTotal(refunds: seq<Refund>, p: nat, status: RefundStatus)
    requires forall r <- refunds :: r.payment != p
    ensures Total(refunds, p, status) == 0
  {
    if refunds != [] {
      NoRefundsNoTotal(refunds[..|refunds| - 1], p, status);
    }
  }

  // ----- the payment row against its refund rows -----

  function TotalShown(refunded: nat, amount: nat): RefundTotal {
    if refunded == 0 then NoRefund else TotalFor(refunded, amount)
  }

  /** `refunded_amount` sums the processed refunds, and `refund_status` says none, partial or full as that dictates. */
  predicate AccountedAt(d: Desk, p: nat)
    requires p < |d.accounts|
  {
    var row := d.accounts[p].row;
    && row.refunded == Total(d.refunds, p, Processed)
    && row.refundTotal == TotalShown(row.refunded, row.amount)
  }

  ghost predicate Accounted(d: Desk) {
    forall p: nat | p < |d.accounts| :: AccountedAt(d, p)
  }

  /** A report goes through and is saved over an out-of-date refund total. */
  predicate SavesStaleTotals(d: Desk, p: nat, copy: Payment, g: GatewayPayment)
    requires OnCopy(d, p, copy)
  {
    !AlreadyApplied(copy, g)
    && (copy.refunded != d.accounts[p].row.refunded || copy.refundTotal != d.accounts[p].row.refundTotal)
  }

  /**
   A settlement parts the payment from its refunds: a processed refund is reported bounced, or one is
   added to a copy that has lost, or already counts, something the row does not.
   */
  predicate SettlesAmiss(d: Desk, k: nat, seen: RefundStatus, copy: Payment, outcome: RefundStatus)
    requires Valid(d) && OnRefund(d, k, copy)
  {
    var r := d.refunds[k];
    Settles(seen, outcome)
    && if outcome == Bounced then r.status == Processed
       else copy.refunded + (if r.status == Processed then r.amount else 0) != d.accounts[r.payment].row.refunded
  }

  /** The acts that part a payment from its refunds: lost updates, and outcomes that contradict one another. */
  predicate Disturbs(d: Desk, act: Act)
    requires Valid(d) && Ready(d, act)
  {
    match act
    case Applying(p, copy, g, _, _, _) => SavesStaleTotals(d, p, copy, g)
    case Settling(k, seen, copy, outcome, _) => SettlesAmiss(d, k, seen, copy, outcome)
    case Repaying(p, copy, amount, _, instant, _) =>
      MayRepay(copy, amount) && instant == Some(Processed) && copy.refunded != d.accounts[p].row.refunded
    case _ => false
  }

  lemma ReportAccounted(d: Desk, p: nat, copy: Payment, g: GatewayPayment, signature: string, now: nat, fate: Fate)
    requires Valid(d) && Accounted(d) && OnCopy(d, p, copy)
    ensures Accounted(Report(d, p, copy, g, signature, now, fate).desk) <==> !SavesStaleTotals(d, p, copy, g)
  {
    var d' := Report(d, p, copy, g, signature, now, fate).desk;
    assert AccountedAt(d, p);
    forall q: nat | q < |d.accounts|
      ensures AccountedAt(d', q) <==> !(q == p && SavesStaleTotals(d, p, copy, g))
    {
      assert AccountedAt(d, q);
    }
    assert |d'.accounts| == |d.accounts|;
    if SavesStaleTotals(d, p, copy, g) {
      assert !AccountedAt(d', p);
    }
  }

  lemma SettleAccountedAt(d: Desk, k: nat, seen: RefundStatus, copy: Payment, outcome: RefundStatus, fate: Fate, q: nat)
    requires Valid(d) && OnRefund(d, k, copy) && q < |d.accounts| && AccountedAt(d, q)
    ensures q < |Settle(d, k, seen, copy, outcome, fate).desk.accounts|
    ensures AccountedAt(Settle(d, k, seen, copy, outcome, fate).desk, q)
            <==> !(q == d.refunds[k].payment && SettlesAmiss(d, k, seen, copy, outcome))
  {
    var r := d.refunds[k];
    assert r in d.refunds;
    TotalReplaced(d.refunds, k, r.(status := outcome), q, Processed);
  }

  lemma SettleAccounted(d: Desk, k: nat, seen: RefundStatus, copy: Payment, outcome: RefundStatus, fate: Fate)
    requires Valid(d) && Accounted(d) && OnRefund(d, k, copy)
    ensures Accounted(Settle(d, k, seen, copy, outcome, fate).desk) <==> !SettlesAmiss(d, k, seen, copy, outcome)
  {
    var d' := Settle(d, k, seen, copy, outcome, fate).desk;
    assert |d'.accounts| == |d.accounts|;
    forall q: nat | q < |d.accounts|
      ensures AccountedAt(d', q) <==> !(q == d.refunds[k].payment && SettlesAmiss(d, k, seen, copy, outcome))
    {
      assert AccountedAt(d, q);
      SettleAccountedAt(d, k, seen, copy, outcome, fate, q);
    }
    if SettlesAmiss(d, k, seen, copy, outcome) {
      assert !AccountedAt(d', d.refunds[k].payment);
    }
  }

  lemma StartedTotal(d: Desk, p: nat, copy: Payment, amount: nat, id: string, q: nat, status: RefundStatus)
    requires p < |d.accounts|
    ensures Total(StartRefund(d, p, copy, amount, id).refunds, q, status)
            == Total(d.refunds, q, status) + if q == p && status == Initiated then amount else 0
  {
    TotalAdded(d.refunds, Refund(p, id, amount, Initiated), q, status);
  }

  lemma StartAccounted(d: Desk, p: nat, copy: Payment, amount: nat, id: string)
    requires Valid(d) && Accounted(d) && p < |d.accounts|
    ensures Accounted(StartRefund(d, p, copy, amount, id))
  {
    var d' := StartRefund(d, p, copy, amount, id);
    forall q: nat | q < |d.accounts|
      ensures AccountedAt(d', q)
    {
      assert AccountedAt(d, q);
      StartedTotal(d, p, copy, amount, id, q, Processed);
      assert d'.accounts[q].row == d.accounts[q].row;
    }
  }

  lemma AttemptAccounted(d: Desk, order: nat, total: nat, id: string)
    requires Valid(d) && Accounted(d) && order < |d.shop.orders|
    ensures Accounted(Perform(d, Attempting(order, total, id)).desk)
  {
    var d' := Perform(d, Attempting(order, total, id)).desk;
    forall q: nat | q < |d'.accounts|
      ensures AccountedAt(d', q)
    {
      if q < |d.accounts| {
        assert AccountedAt(d, q);
      } else {
        NoRefundsNoTotal(d.refunds, q, Processed);
      }
    }
  }

  lemma PerformAccounted(d: Desk, act: Act)
    requires Valid(d) && Accounted(d) && Ready(d, act)
    ensures Accounted(Perform(d, act).desk) <==> !Disturbs(d, act)
  {
    match act {
      case Applying(p, copy, g, signature, now, fate) => ReportAccounted(d, p, copy, g, signature, now, fate);
      case Settling(k, seen, copy, outcome, fate) => SettleAccounted(d, k, seen, copy, outcome, fate);
      case Repaying(p, copy, amount, id, instant, fate) =>
        if MayRepay(copy, amount) {
          StartAccounted(d, p, copy, amount, id);
          StartRefundValid(d, p, copy, amount, id);
          if instant.Some? {
            SettleAccounted(StartRefund(d, p, copy, amount, id), |d.refunds|, Initiated, copy, instant.value, fate);
          }
        }
      case Attempting(order, total, id) => AttemptAccounted(d, order, total, id);
      case Shopping(_) => SameRows(d, Perform(d, act).desk);
      case Idle(_) =>
    }
  }

  /** Neither the shop nor the dedupe table is part of the accounting. */
  lemma SameRows(a: Desk, b: Desk)
    requires a.accounts == b.accounts && a.refunds == b.refunds
    ensures Accounted(a) <==> Accounted(b)
    ensures Bounded(a) <==> Bounded(b)
  {
    forall p: nat | p < |a.accounts|
      ensures AccountedAt(a, p) == AccountedAt(b, p) && BoundedAt(a, p) == BoundedAt(b, p)
    {
    }
  }

  /** The accounting survives a step exactly when what the step comes down to is not one of those. */
  lemma AccountedStep(d: Desk, step: Step)
    requires Valid(d) && Accounted(d)
    ensures Accounted(Do(d, step).desk) <==> !Disturbs(d, ActOf(d, step))
  {
    PerformAccounted(d, ActOf(d, step));
    SameRows(Do(d, step).desk, Perform(d, ActOf(d, step)).desk);
  }

  /**
   Overlapping deliveries of one refund do no harm to the totals: both load refund and payment
   together, so the second saves the sum the first did.
   */
  lemma OverlappingDeliveriesSettleOnce(d: Desk, k: nat, fate: Fate, fate': Fate)
    requires Valid(d) && Accounted(d) && k < |d.refunds| && d.refunds[k].status == Initiated
    requires d.refunds[k].payment < |d.accounts|
    ensures var copy := d.accounts[d.refunds[k].payment].row;
            var once := Settle(d, k, Initiated, copy, Processed, fate).desk;
            && Valid(once) && OnRefund(once, k, copy)
            && var twice := Settle(once, k, Initiated, copy, Processed, fate').desk;
               && Accounted(once) && Accounted(twice) && twice.refunds == once.refunds
               && |twice.accounts| == |once.accounts|
               && forall q | 0 <= q < |twice.accounts| :: twice.accounts[q].row == once.accounts[q].row
  {
    var copy := d.accounts[d.refunds[k].payment].row;
    var once := Settle(d, k, Initiated, copy, Processed, fate).desk;
    SettleValid(d, k, Initiated, copy, Processed, fate);
    SettleAccounted(d, k, Initiated, copy, Processed, fate);
    SettleAccounted(once, k, Initiated, copy, Processed, fate');
  }

  // ----- the payment row against the amount paid -----

  /** Processed and pending refunds together fit the payment. */
  predicate BoundedAt(d: Desk, p: nat)
    requires p < |d.accounts|
  {
    d.accounts[p].row.refunded + Total(d.refunds, p, Initiated) <= d.accounts[p].row.amount
  }

  ghost predicate Bounded(d: Desk) {
    forall p: nat | p < |d.accounts| :: BoundedAt(d, p)
  }

  /** Adding `amount` to what is refunded and pending goes beyond what was paid. */
  predicate Exceeds(d: Desk, p: nat, amount: nat)
    requires p < |d.accounts|
  {
    d.accounts[p].row.refunded + Total(d.refunds, p, Initiated) + amount > d.accounts[p].row.amount
  }

  /** Starting a refund that, with those still pending, exceeds what is left. */
  predicate Overcommits(d: Desk, act: Act)
    requires Valid(d) && Ready(d, act)
  {
    && act.Repaying? && MayRepay(act.copy, act.amount) && act.instant != Some(Bounced)
    && Exceeds(d, act.payment, act.amount)
  }

  /** A refund that had failed is reported processed after all, and no longer fits. */
  predicate Revives(d: Desk, act: Act)
    requires Valid(d) && Ready(d, act)
  {
    && act.Settling? && act.outcome == Processed && act.seen != Processed
    && d.refunds[act.refund].status == Bounced
    && Exceeds(d, d.refunds[act.refund].payment, d.refunds[act.refund].amount)
  }

  lemma ReportBounded(d: Desk, p: nat, copy: Payment, g: GatewayPayment, signature: string, now: nat, fate: Fate)
    requires Valid(d) && Bounded(d) && OnCopy(d, p, copy)
    requires copy.refunded == d.accounts[p].row.refunded || AlreadyApplied(copy, g)
    ensures Bounded(Report(d, p, copy, g, signature, now, fate).desk)
  {
    var d' := Report(d, p, copy, g, signature, now, fate).desk;
    forall q: nat | q < |d.accounts|
      ensures BoundedAt(d', q) { assert BoundedAt(d, q); }
  }

  /** What a settlement that keeps the accounting adds to, or takes off, refunded and pending together. */
  function Swing(d: Desk, k: nat, seen: RefundStatus, outcome: RefundStatus): int
    requires k < |d.refunds|
  {
    var r := d.refunds[k];
    if !Settles(seen, outcome) then 0
    else if outcome == Bounced && r.status == Initiated then 0 - r.amount
    else if outcome == Processed && r.status == Bounced then r.amount
    else 0
  }

  lemma SettleBoundedAt(d: Desk, k: nat, seen: RefundStatus, copy: Payment, outcome: RefundStatus, fate: Fate, q: nat)
    requires Valid(d) && OnRefund(d, k, copy) && q < |d.accounts| && !SettlesAmiss(d, k, seen, copy, outcome)
    ensures var d' := Settle(d, k, seen, copy, outcome, fate).desk;
            && q < |d'.accounts| && d'.accounts[q].row.amount == d.accounts[q].row.amount
            && d'.accounts[q].row.refunded + Total(d'.refunds, q, Initiated)
               == d.accounts[q].row.refunded + Total(d.refunds, q, Initiated)
                  + if q == d.refunds[k].payment then Swing(d, k, seen, outcome) else 0
  {
    TotalReplaced(d.refunds, k, d.refunds[k].(status := outcome), q, Initiated);
  }

  lemma SettleBounded(d: Desk, k: nat, seen: RefundStatus, copy: Payment, outcome: RefundStatus, fate: Fate)
    requires Valid(d) && OnRefund(d, k, copy) && !SettlesAmiss(d, k, seen, copy, outcome)
    requires forall q: nat | q < |d.accounts| && q != d.refunds[k].payment :: BoundedAt(d, q)
    ensures var p := d.refunds[k].payment;
            Bounded(Settle(d, k, seen, copy, outcome, fate).desk) <==>
            d.accounts[p].row.refunded + Total(d.refunds, p, Initiated) + Swing(d, k, seen, outcome)
            <= d.accounts[p].row.amount
  {
    var d', p := Settle(d, k, seen, copy, outcome, fate).desk, d.refunds[k].payment;
    assert |d'.accounts| == |d.accounts|;
    SettleBoundedAt(d, k, seen, copy, outcome, fate, p);
    forall q: nat | q < |d.accounts| && q != p
      ensures BoundedAt(d', q)
    {
      assert BoundedAt(d, q);
      SettleBoundedAt(d, k, seen, copy, outcome, fate, q);
    }
    assert Bounded(d') <==> BoundedAt(d', p);
  }

  lemma RepayBounded(d: Desk, p: nat, copy: Payment, amount: nat, id: string, instant: Option<RefundStatus>, fate: Fate)
    requires Valid(d) && Bounded(d) && OnCopy(d, p, copy) && MayRepay(copy, amount)
    requires instant == Some(Processed) ==> copy.refunded == d.accounts[p].row.refunded
    ensures Bounded(InitiateRefund(d, p, copy, amount, id, instant, fate).desk)
            <==> instant == Some(Bounced) || !Exceeds(d, p, amount)
  {
    var started := StartRefund(d, p, copy, amount, id);
    StartRefundValid(d, p, copy, amount, id);
    StartedTotal(d, p, copy, amount, id, p, Initiated);
    assert BoundedAt(d, p);
    forall q: nat | q < |d.accounts| && q != p
      ensures BoundedAt(started, q)
    {
      assert BoundedAt(d, q);
      StartedTotal(d, p, copy, amount, id, q, Initiated);
    }
    assert Bounded(started) <==> BoundedAt(started, p);
    if instant.Some? {
      SettleBounded(started, |d.refunds|, Initiated, copy, instant.value, fate);
    }
  }

  lemma AttemptBounded(d: Desk, order: nat, total: nat, id: string)
    requires Valid(d) && Bounded(d) && order < |d.shop.orders|
    ensures Bounded(Perform(d, Attempting(order, total, id)).desk)
  {
    var d' := Perform(d, Attempting(order, total, id)).desk;
    forall q: nat | q < |d'.accounts|
      ensures BoundedAt(d', q)
    {
      if q < |d.accounts| {
        assert BoundedAt(d, q);
      } else {
        NoRefundsNoTotal(d.refunds, q, Initiated);
      }
    }
  }

  /** While the accounting holds, the refund bound survives a step exactly when the step does neither. */
  lemma BoundedStep(d: Desk, step: Step)
    requires Valid(d) && Accounted(d) && Bounded(d) && !Disturbs(d, ActOf(d, step))
    ensures Bounded(Do(d, step).desk) <==> !Overcommits(d, ActOf(d, step)) && !Revives(d, ActOf(d, step))
  {
    var act := ActOf(d, step);
    SameRows(Do(d, step).desk, Perform(d, act).desk);
    match act {
      case Applying(p, copy, g, signature, now, fate) => ReportBounded(d, p, copy, g, signature, now, fate);
      case Settling(k, seen, copy, outcome, fate) =>
        assert BoundedAt(d, d.refunds[k].payment);
        SettleBounded(d, k, seen, copy, outcome, fate);
      case Repaying(p, copy, amount, id, instant, fate) =>
        if MayRepay(copy, amount) {
          RepayBounded(d, p, copy, amount, id, instant, fate);
        }
      case Attempting(order, total, id) => AttemptBounded(d, order, total, id);
      case Shopping(_) => SameRows(d, Perform(d, act).desk);
      case Idle(_) =>
    }
  }

  /** A refund started on a fresh copy with none pending never overcommits: one refund at a time is safe. */
  lemma OneAtATimeIsSafe(d: Desk, act: Act)
    requires Valid(d) && Ready(d, act) && act.Repaying?
    requires act.copy == d.accounts[act.payment].row && Total(d.refunds, act.payment, Initiated) == 0
    ensures !Overcommits(d, act)
  {
  }

  // ----- whole runs -----

  /** No step of the run parts a payment from its refunds. */
  ghost predicate UndisturbedRun(d: Desk, steps: seq<Step>)
    requires Valid(d)
  {
    steps == []
    || (UndisturbedRun(d, steps[..|steps| - 1])
        && var before := DeskRun(d, steps[..|steps| - 1]);
           !Disturbs(before, ActOf(before, steps[|steps| - 1])))
  }

  /** Besides, every refund it starts or revives fits beside those pending. */
  ghost predicate FittingRun(d: Desk, steps: seq<Step>)
    requires Valid(d)
  {
    steps == []
    || (FittingRun(d, steps[..|steps| - 1])
        && var before := DeskRun(d, steps[..|steps| - 1]);
           var act := ActOf(before, steps[|steps| - 1]);
           !Overcommits(before, act) && !Revives(before, act))
  }

  /**
   Over every undisturbed run, with any duplicates, any order of events and any overlap of pending
   refunds: each payment has refunded exactly its processed refunds, and says so truthfully.
   */
  lemma {:induction false} EveryRunAccounted(counters: Stock.Counters, steps: seq<Step>)
    requires UndisturbedRun(OpeningDesk(counters), steps)
    ensures Accounted(DeskRun(OpeningDesk(counters), steps))
  {
    if steps != [] {
      var front := steps[..|steps| - 1];
      EveryRunAccounted(counters, front);
      AccountedStep(DeskRun(OpeningDesk(counters), front), steps[|steps| - 1]);
    }
  }

  /** If its refunds also fit when they are started, no payment ever refunds more than was paid. */
  lemma {:induction false} EveryFittingRunBounded(counters: Stock.Counters, steps: seq<Step>)
    requires UndisturbedRun(OpeningDesk(counters), steps) && FittingRun(OpeningDesk(counters), steps)
    ensures var d := DeskRun(OpeningDesk(counters), steps);
            Bounded(d) && forall a <- d.accounts :: a.row.refunded <= a.row.amount
  {
    var d := DeskRun(OpeningDesk(counters), steps);
    if steps != [] {
      var front := steps[..|steps| - 1];
      EveryRunAccounted(counters, front);
      EveryFittingRunBounded(counters, front);
      BoundedStep(DeskRun(OpeningDesk(counters), front), steps[|steps| - 1]);
    }
    forall a | a in d.accounts
      ensures a.row.refunded <= a.row.amount
    {
      var p :| 0 <= p < |d.accounts| && d.accounts[p] == a;
      assert BoundedAt(d, p);
    }
  }

  /** Callers hold what is current, a refund is settled once, and none is started while another is pending. */
  predicate Orderly(d: Desk, act: Act)
    requires Valid(d) && Ready(d, act)
  {
    match act
    case Applying(p, copy, _, _, _, _) => copy == d.accounts[p].row
    case Settling(k, seen, copy, outcome, _) =>
      copy == d.accounts[d.refunds[k].payment].row && seen == d.refunds[k].status
      && (Settles(seen, outcome) ==> seen == Initiated)
    case Repaying(p, copy, _, _, _, _) => copy == d.accounts[p].row && Total(d.refunds, p, Initiated) == 0
    case _ => true
  }

  ghost predicate OrderlyRun(d: Desk, steps: seq<Step>)
    requires Valid(d)
  {
    steps == []
    || (OrderlyRun(d, steps[..|steps| - 1])
        && var before := DeskRun(d, steps[..|steps| - 1]);
           Orderly(before, ActOf(before, steps[|steps| - 1])))
  }

  lemma OrderlyStep(d: Desk, act: Act)
    requires Valid(d) && Ready(d, act) && Orderly(d, act)
    ensures !Disturbs(d, act) && !Overcommits(d, act) && !Revives(d, act)
  {
  }

  /** Orderly callers are enough for both, from any desk. */
  lemma {:induction false} OrderlyRunsStayTrueAndFit(d: Desk, steps: seq<Step>)
    requires Valid(d) && OrderlyRun(d, steps)
    ensures UndisturbedRun(d, steps) && FittingRun(d, steps)
  {
    if steps != [] {
      var before := DeskRun(d, steps[..|steps| - 1]);
      OrderlyRunsStayTrueAndFit(d, steps[..|steps| - 1]);
      OrderlyStep(before, ActOf(before, steps[|steps| - 1]));
    }
  }

  // ----- pending refunds are not counted -----

  /** What is left of payment `p`, refunded on a fresh copy and left pending by the gateway. */
  function RefundOfTheRest(d: Desk, p: nat, id: string): Step
    requires p < |d.accounts|
  {
    var row := d.accounts[p].row;
    Repay(p, row, row.amount - row.refunded, id, None, Completed)
  }

  /** A webhook that loads the refund and its payment as they are, and finds the refund processed. */
  function SettledBy(d: Desk, key: string, id: string): Step
    requires Valid(d)
  {
    Webhook(key, IsProcessed(d.hooks, key), Load(d, RefundNotice(id, Processed), None), 0, Completed)
  }

  lemma PendingStep(d: Desk, p: nat, id: string)
    requires Valid(d) && p < |d.accounts|
    requires d.accounts[p].row.status.Refundable() && d.accounts[p].row.refunded < d.accounts[p].row.amount
    ensures var row, d' := d.accounts[p].row, Do(d, RefundOfTheRest(d, p, id)).desk;
            && Valid(d') && |d'.accounts| == |d.accounts| && d'.accounts[p].row == row
            && d'.refunds == d.refunds + [Refund(p, id, row.amount - row.refunded, Initiated)] && d'.hooks == d.hooks
  {
    DoValid(d, RefundOfTheRest(d, p, id));
  }

  /** A processed report for a pending refund adds its amount to its payment. */
  lemma SettlesPending(d: Desk, key: string, id: string, k: nat)
    requires Valid(d) && FindRefund(d.refunds, id) == Some(k) && d.refunds[k].status == Initiated
    requires d.refunds[k].payment < |d.accounts| && !IsProcessed(d.hooks, key)
    ensures var d', r := Do(d, SettledBy(d, key, id)).desk, d.refunds[k];
            && Valid(d') && |d'.accounts| == |d.accounts|
            && d'.accounts[r.payment].row == Repaid(d.accounts[r.payment].row, r.amount)
            && d'.refunds == d.refunds[k := r.(status := Processed)]
            && forall other | other != key :: IsProcessed(d'.hooks, other) == IsProcessed(d.hooks, other)
  {
    DoValid(d, SettledBy(d, key, id));
  }

  /** The four steps: the rest of the payment refunded twice, then both refunds processed, nothing stale anywhere. */
  ghost function RefundedTwice(d: Desk, p: nat, id: string, id': string, key: string, key': string): (r: Desk)
    requires Valid(d) && p < |d.accounts|
    requires d.accounts[p].row.status.Refundable() && d.accounts[p].row.refunded < d.accounts[p].row.amount
  {
    PendingStep(d, p, id);
    var d1 := Do(d, RefundOfTheRest(d, p, id)).desk;
    PendingStep(d1, p, id');
    var d2 := Do(d1, RefundOfTheRest(d1, p, id')).desk;
    DoValid(d2, SettledBy(d2, key, id));
    var d3 := Do(d2, SettledBy(d2, key, id)).desk;
    Do(d3, SettledBy(d3, key', id')).desk
  }

  /**
   Pending refunds are not counted: what is left of any refundable payment can be refunded twice on
   fresh copies, whatever else is pending, and once both settle it has paid back more than was paid.
   */
  lemma PendingRefundsAreNotCounted(d: Desk, p: nat, id: string, id': string, key: string, key': string)
    requires Valid(d) && p < |d.accounts| && id != id'
    requires key != key' && !IsProcessed(d.hooks, key) && !IsProcessed(d.hooks, key')
    requires d.accounts[p].row.status.Refundable() && d.accounts[p].row.refunded < d.accounts[p].row.amount
    ensures var row, end := d.accounts[p].row, RefundedTwice(d, p, id, id', key, key');
            && p < |end.accounts| && end.accounts[p].row.amount == row.amount
            && end.accounts[p].row.refunded == 2 * row.amount - row.refunded > row.amount
  {
    PendingStep(d, p, id);
    var d1 := Do(d, RefundOfTheRest(d, p, id)).desk;
    PendingStep(d1, p, id');
    var d2 := Do(d1, RefundOfTheRest(d1, p, id')).desk;
    var n := |d.refunds|;
    assert d2.refunds[..n + 1][n] == d2.refunds[n];
    SettlesPending(d2, key, id, n);
    var d3 := Do(d2, SettledBy(d2, key, id)).desk;
    SettlesPending(d3, key', id', n + 1);
  }
}
