/**
 The payment service: payment, refund and webhook rows updated in place, and the
 pipeline run on the shop after each commit.

 Each method takes its branches as the service does, on the rows its caller
 loaded, and its contract equates the new desk with a step of the module
 `Payments`. A webhook loads first (`LoadForWebhook`) and saves later.
 */
module PaymentService {
  import opened Wrappers
  import opened Payments
  import opened PaymentRules
  import Orders
  import Shop = Store

  lemma RunOne(s: Orders.Shop, a: Orders.Step)
    requires Orders.Valid(s)
    ensures Orders.Run(s, [a]) == Orders.Apply(s, a)
  {
  }

  lemma RunTwo(s: Orders.Shop, a: Orders.Step, b: Orders.Step)
    requires Orders.Valid(s)
    ensures Orders.Run(s, [a, b]) == Orders.Apply(Orders.Apply(s, a), b)
  {
    RunOne(s, a);
    assert [a] + [b] == [a, b];
    Orders.RunOneMore(s, [a], b);
  }

  class PaymentService {
    const store: Shop.Store
    var accounts: seq<Account>
    var refunds: seq<Refund>
    var hooks: map<string, bool>

    function Snapshot(): Desk
      reads this, store, store.room
    {
      Desk(store.Snapshot(), accounts, refunds, hooks)
    }

    ghost predicate Valid()
      reads this, store, store.room
    {
      Payments.Valid(Snapshot())
    }

    constructor (store: Shop.Store)
      requires store.Valid()
      ensures Valid() && this.store == store && accounts == [] && refunds == [] && hooks == map[]
    {
      this.store := store;
      accounts, refunds, hooks := [], [], map[];
    }

    /** The payment page and the retry, by the order as loaded: keep a live attempt if asked to, else start one. */
    method StartAttempt(order: nat, seen: Orders.Status, total: nat, gatewayOrderId: string, reuse: bool)
      returns (p: Option<nat>)
      requires Valid() && order < |store.orders|
      modifies this
      ensures Snapshot() == Do(old(Snapshot()), Attempt(order, seen, total, gatewayOrderId, reuse)).desk
      ensures p.None? <==> seen != Orders.AwaitingPayment && seen != Orders.PaymentFailed
      ensures p.None? ==> accounts == old(accounts)
      ensures p.Some? ==> p.value < |accounts| && accounts[p.value].row.order == order
      ensures p.Some? && accounts == old(accounts) ==> reuse && Open(accounts[p.value].row.status)
      ensures p.Some? && accounts != old(accounts) ==>
                && p.value == |old(accounts)|
                && accounts == old(accounts)
                   + [Account(Payment(order, gatewayOrderId, "", Created, total, 0, NoRefund, None, "", ""),
                              [PaymentEvent(None, Created)])]
                && (reuse ==> forall a <- old(accounts) :: a.row.order == order ==> !Open(a.row.status))
    {
      if !MayPay(seen) {
        return None;
      }
      if reuse {
        var live := LiveAttempt(accounts, order);
        LiveAttemptIsLive(accounts, order);
        if live.Some? {
          return live;
        }
      }
      accounts := accounts + [FreshAccount(order, total, gatewayOrderId)];
      p := Some(|accounts| - 1);
    }

    /** Runs what a commit scheduled after a capture; true if it raised. */
    method RunCaptured(order: nat, fate: Fate) returns (raised: bool)
      requires store.Valid() && order < |store.orders|
      modifies store, store.room
      ensures store.Valid()
      ensures store.Snapshot() == Orders.Run(old(store.Snapshot()), CaptureSteps(old(store.Snapshot()), order, fate))
      ensures raised <==> fate != Completed
    {
      if fate != Lost {
        RunOne(store.Snapshot(), Orders.CaptureReported(order));
        RunTwo(store.Snapshot(), Orders.CaptureReported(order), Orders.OpenShipment(order));
        var ran := store.OnPaymentCaptured(order, fate == Interrupted);
      }
      raised := fate != Completed;
    }

    method RunRefunded(order: nat, full: bool, fate: Fate)
      requires store.Valid() && order < |store.orders|
      modifies store
      ensures store.Valid()
      ensures store.Snapshot() == Orders.Run(old(store.Snapshot()), RefundSteps(order, full, fate))
    {
      if fate != Lost {
        RunOne(store.Snapshot(), Orders.RefundReported(order, full));
        store.OnRefundProcessed(order, full);
      }
    }

    /** Applies a fetched state over the caller's copy, commits, then runs the pipeline the copy calls for. */
    method ApplyGatewayPaymentState(p: nat, copy: Payment, g: GatewayPayment, signature: string, now: nat, fate: Fate)
      returns (raised: bool)
      requires Valid() && OnCopy(Snapshot(), p, copy)
      modifies this, store, store.room
      ensures Snapshot() == Report(old(Snapshot()), p, copy, g, signature, now, fate).desk
      ensures raised == Report(old(Snapshot()), p, copy, g, signature, now, fate).raised
      ensures !IsNews(copy, g) ==> Snapshot() == old(Snapshot()) && !raised
      ensures IsNews(copy, g) ==>
                && p < |accounts| && ShowsReport(accounts[p].row, copy, g, signature, now)
                && OnlyRowChanged(old(accounts), accounts, p, accounts[p].row,
                                  PaymentEvent(Some(copy.status), g.status))
    {
      ReportSays(Snapshot(), p, copy, g, signature, now, fate);
      if copy.status == g.status && copy.gatewayPaymentId == g.gatewayPaymentId {
        return false;
      }
      assert accounts[p] in accounts;
      var row := copy.(gatewayPaymentId := g.gatewayPaymentId, status := g.status, detail := g.detail);
      if signature != "" {
        row := row.(signature := signature);
      }
      if g.status == Captured && copy.capturedAt.None? {
        row := row.(capturedAt := Some(now));
      }
      accounts := accounts[p := Account(row, accounts[p].events + [PaymentEvent(Some(copy.status), row.status)])];
      raised := false;
      if row.status == Captured && copy.status != Captured {
        raised := RunCaptured(row.order, fate);
      } else if row.status == Failed && copy.status != Failed {
        RunOne(store.Snapshot(), Orders.FailureReported(row.order));
        if fate != Lost {
          var ran := store.OnPaymentFailed(row.order);
        }
        raised := fate != Completed;
      }
    }

    /** Returns whether the payment is now captured, as the gateway says. */
    method VerifyClientCallback(p: nat, copy: Payment, gatewayOrderId: string, signed: bool, fetched: GatewayPayment,
                                signature: string, now: nat, fate: Fate) returns (captured: bool, raised: bool)
      requires Valid() && OnCopy(Snapshot(), p, copy)
      modifies this, store, store.room
      ensures var done := Do(old(Snapshot()), Callback(p, copy, gatewayOrderId, signed, fetched, signature, now, fate));
              Snapshot() == done.desk && raised == done.raised
      ensures captured <==> gatewayOrderId == copy.gatewayOrderId && signed && fetched.status == Captured
      ensures !signed || gatewayOrderId != copy.gatewayOrderId ==> Snapshot() == old(Snapshot()) && !raised
      ensures signed && gatewayOrderId == copy.gatewayOrderId && IsNews(copy, fetched) ==>
                && p < |accounts| && ShowsReport(accounts[p].row, copy, fetched, signature, now)
                && OnlyRowChanged(old(accounts), accounts, p, accounts[p].row,
                                  PaymentEvent(Some(copy.status), fetched.status))
    {
      if gatewayOrderId != copy.gatewayOrderId {
        return false, false;
      }
      if !signed {
        return false, false;
      }
      assert accounts[p] in accounts;
      raised := ApplyGatewayPaymentState(p, copy, fetched, signature, now, fate);
      captured := fetched.status == Captured;
    }

    method ReconcilePayment(p: nat, copy: Payment, fetched: GatewayPayment, now: nat, fate: Fate) returns (raised: bool)
      requires Valid() && OnCopy(Snapshot(), p, copy)
      modifies this, store, store.room
      ensures var done := Do(old(Snapshot()), Reconcile(p, copy, fetched, now, fate));
              Snapshot() == done.desk && raised == done.raised
      ensures copy.gatewayPaymentId == "" ==> Snapshot() == old(Snapshot()) && raised
      ensures copy.gatewayPaymentId != "" && IsNews(copy, fetched) ==>
                p < |accounts| && ShowsReport(accounts[p].row, copy, fetched, "", now)
    {
      if copy.gatewayPaymentId == "" {
        return true;
      }
      assert accounts[p] in accounts;
      raised := ApplyGatewayPaymentState(p, copy, fetched, "", now, fate);
    }

    /** The transaction of a refund result: the refund's row, the payment's if it was processed, and an event. */
    method SaveRefundResult(k: nat, copy: Payment, outcome: RefundStatus) returns (payment: Payment)
      requires k < |refunds| && refunds[k].payment < |accounts|
      modifies this`accounts, this`refunds
      ensures payment == if outcome == Processed then Repaid(copy, old(refunds)[k].amount) else copy
      ensures refunds == old(refunds)[k := old(refunds)[k].(status := outcome)]
      ensures var p := old(refunds)[k].payment;
              accounts == old(accounts)[p := Account(if outcome == Processed then payment else old(accounts)[p].row,
                                                     old(accounts)[p].events + [PaymentEvent(None, payment.status)])]
    {
      var refund := refunds[k];
      refunds := refunds[k := refund.(status := outcome)];
      var account := accounts[refund.payment];
      payment := copy;
      if outcome == Processed {
        payment := payment.(refunded := payment.refunded + refund.amount);
        payment := payment.(refundTotal := if payment.refunded >= payment.amount then Full else Partial);
        payment := payment.(status := if payment.refundTotal == Full then Refunded else PartiallyRefunded);
        account := account.(row := payment);
      }
      accounts := accounts[refund.payment := account.(events := account.events + [PaymentEvent(None, payment.status)])];
    }

    /** `seen` is the status on the loaded refund, `copy` the payment loaded with it. */
    method ApplyRefundResult(k: nat, seen: RefundStatus, copy: Payment, outcome: RefundStatus, fate: Fate)
      returns (raised: bool)
      requires Valid() && OnRefund(Snapshot(), k, copy)
      modifies this, store, store.room
      ensures Snapshot() == Settle(old(Snapshot()), k, seen, copy, outcome, fate).desk
      ensures raised == Settle(old(Snapshot()), k, seen, copy, outcome, fate).raised
      ensures outcome == Initiated || seen == outcome ==> Snapshot() == old(Snapshot()) && !raised
      ensures outcome != Initiated && seen != outcome ==>
                var p := old(refunds)[k].payment;
                && refunds == old(refunds)[k := old(refunds)[k].(status := outcome)]
                && p < |accounts|
                && if outcome == Processed then ShowsRefund(accounts[p].row, copy, old(refunds)[k].amount)
                   else accounts[p].row == old(accounts)[p].row
    {
      SettleSays(Snapshot(), k, seen, copy, outcome, fate);
      if outcome == Initiated || seen == outcome {
        return false;
      }
      assert accounts[refunds[k].payment] in accounts;
      var payment := SaveRefundResult(k, copy, outcome);
      if outcome == Processed {
        RunRefunded(payment.order, payment.refundTotal == Full, fate);
      }
      raised := fate != Completed;
    }

    /** The guard reads the caller's copy; the gateway may settle the refund on the spot. */
    method InitiateRefund(p: nat, copy: Payment, amount: int, gatewayRefundId: string, instant: Option<RefundStatus>,
                          fate: Fate) returns (raised: bool)
      requires Valid() && OnCopy(Snapshot(), p, copy)
      modifies this, store, store.room
      ensures var done := Do(old(Snapshot()), Repay(p, copy, amount, gatewayRefundId, instant, fate));
              Snapshot() == done.desk && raised == done.raised
      ensures !CanStillRefund(copy, amount) ==> Snapshot() == old(Snapshot()) && raised
      ensures CanStillRefund(copy, amount) ==>
                var status := if instant.Some? then instant.value else Initiated;
                && refunds == old(refunds) + [Refund(p, gatewayRefundId, amount, status)]
                && p < |accounts|
                && if status == Processed then ShowsRefund(accounts[p].row, copy, amount)
                   else accounts[p].row == old(accounts)[p].row
    {
      RefundSays(Snapshot(), p, copy, amount, gatewayRefundId, instant, fate);
      RepayStep(Snapshot(), p, copy, amount, gatewayRefundId, instant, fate);
      if copy.status != Captured && copy.status != PartiallyRefunded {
        return true;
      }
      if amount <= 0 || copy.refunded + amount > copy.amount {
        return true;
      }
      refunds := refunds + [Refund(p, gatewayRefundId, amount, Initiated)];
      var logged := accounts[p].events + [PaymentEvent(Some(copy.status), copy.status)];
      accounts := accounts[p := accounts[p].(events := logged)];
      raised := false;
      if instant.Some? {
        raised := ApplyRefundResult(|refunds| - 1, Initiated, copy, instant.value, fate);
      }
    }

    /** The first half of a dispatch: the rows a webhook finds and holds while the gateway is asked. */
    method LoadForWebhook(notice: Notice, fetched: Option<GatewayPayment>) returns (job: Job)
      requires Valid()
      ensures job == Load(Snapshot(), notice, fetched) && Loaded(Snapshot(), job)
      ensures notice.PaymentNotice? && job.ReportJob? ==>
                && AnswersTo(accounts[job.payment].row, notice.gatewayPaymentId, notice.gatewayOrderId)
                && job.copy == accounts[job.payment].row && job.fetched == fetched
      ensures notice.PaymentNotice? ==> !job.SettleJob?
      ensures notice.PaymentNotice? ==>
                forall q | (if job.ReportJob? then job.payment + 1 else 0) <= q < |accounts| ::
                  !AnswersTo(accounts[q].row, notice.gatewayPaymentId, notice.gatewayOrderId)
      ensures notice.RefundNotice? && job.SettleJob? ==>
                && job.refund < |refunds| && refunds[job.refund].gatewayRefundId == notice.gatewayRefundId
                && refunds[job.refund].payment < |accounts|
                && job.seen == refunds[job.refund].status && job.outcome == notice.result
                && job.copy == accounts[refunds[job.refund].payment].row
      ensures notice.RefundNotice? ==> !job.ReportJob?
      ensures notice.RefundNotice? ==>
                forall q | (if job.SettleJob? then job.refund + 1 else 0) <= q < |refunds| ::
                  refunds[q].gatewayRefundId != notice.gatewayRefundId
    {
      job := NoJob;
      match notice {
        case PaymentNotice(gatewayPaymentId, gatewayOrderId) =>
          var p := Find(accounts, gatewayPaymentId, gatewayOrderId);
          FindsTheNewest(accounts, gatewayPaymentId, gatewayOrderId);
          if p.Some? {
            job := ReportJob(p.value, accounts[p.value].row, fetched);
          }
        case RefundNotice(gatewayRefundId, result) =>
          var k := FindRefund(refunds, gatewayRefundId);
          FindsTheNewestRefund(refunds, gatewayRefundId);
          if k.Some? {
            assert refunds[k.value] in refunds;
            var payment := accounts[refunds[k.value].payment];
            job := SettleJob(k.value, refunds[k.value].status, payment.row, result);
          }
        case OtherNotice =>
      }
    }

    /** The second half: what was loaded is judged and saved. */
    method DispatchWebhookEvent(job: Job, now: nat, fate: Fate) returns (raised: bool)
      requires Valid() && Loaded(Snapshot(), job)
      modifies this, store, store.room
      ensures Snapshot() == Perform(old(Snapshot()), JobAct(job, now, fate)).desk
      ensures raised == Perform(old(Snapshot()), JobAct(job, now, fate)).raised
      ensures job.NoJob? || (job.ReportJob? && job.fetched.None?) ==>
                Snapshot() == old(Snapshot()) && (raised <==> job.ReportJob?)
      ensures job.ReportJob? && job.fetched.Some? && IsNews(job.copy, job.fetched.value) ==>
                && job.payment < |accounts|
                && ShowsReport(accounts[job.payment].row, job.copy, job.fetched.value, "", now)
      ensures job.SettleJob? && job.outcome != Initiated && job.seen != job.outcome ==>
                refunds == old(refunds)[job.refund := old(refunds)[job.refund].(status := job.outcome)]
    {
      raised := false;
      match job {
        case ReportJob(p, copy, fetched) =>
          if fetched.None? {
            raised := true;
          } else {
            raised := ApplyGatewayPaymentState(p, copy, fetched.value, "", now, fate);
          }
        case SettleJob(k, seen, copy, outcome) =>
          raised := ApplyRefundResult(k, seen, copy, outcome, fate);
        case NoJob =>
      }
    }

    /**
     Deduplicates by what the delivery read of its key, dispatches, and marks the key processed only
     if nothing was raised; a mark another delivery made meanwhile stays.
     */
    method ProcessWebhook(signed: bool, key: string, processed: bool, job: Job, now: nat, fate: Fate)
      returns (handled: bool, raised: bool)
      requires Valid() && Loaded(Snapshot(), job)
      modifies this, store, store.room
      ensures var done := Do(old(Snapshot()), Webhook(key, processed, job, now, fate));
              if signed then Snapshot() == done.desk && raised == done.raised && handled == !raised
              else Snapshot() == old(Snapshot()) && !handled && !raised
      ensures signed && processed ==> Snapshot() == old(Snapshot()) && handled && !raised
      ensures signed && !processed ==>
                && (IsProcessed(hooks, key) <==> !raised || IsProcessed(old(hooks), key))
                && forall other | other != key :: IsProcessed(hooks, other) <==> IsProcessed(old(hooks), other)
      ensures signed && !processed && job.ReportJob? && job.fetched.Some? && IsNews(job.copy, job.fetched.value) ==>
                && job.payment < |accounts|
                && ShowsReport(accounts[job.payment].row, job.copy, job.fetched.value, "", now)
      ensures signed && !processed && job.SettleJob? && job.outcome != Initiated && job.seen != job.outcome ==>
                refunds == old(refunds)[job.refund := old(refunds)[job.refund].(status := job.outcome)]
    {
      if !signed {
        return false, false;
      }
      if processed {
        return true, false;
      }
      WebhookStep(Snapshot(), key, job, now, fate);
      var found := hooks;
      raised := DispatchWebhookEvent(job, now, fate);
      assert hooks == found;
      if !raised {
        hooks := hooks[key := true];
      } else {
        hooks := hooks[key := IsProcessed(hooks, key)];
      }
      handled := !raised;
    }
  }

  lemma {:induction false} LiveAttemptIsLive(accounts: seq<Account>, order: nat)
    ensures var live := LiveAttempt(accounts, order);
            if live.Some? then
              live.value < |accounts| && accounts[live.value].row.order == order
              && Open(accounts[live.value].row.status)
              && forall q | live.value < q < |accounts| ::
                   accounts[q].row.order == order ==> !Open(accounts[q].row.status)
            else forall a <- accounts :: a.row.order == order ==> !Open(a.row.status)
  {
    if accounts != [] {
      LiveAttemptIsLive(accounts[..|accounts| - 1], order);
    }
  }
}
