/**
 What the payment desk stores, and what it refuses, field by field.

 The lemmas say of every entry point which requests leave no trace at all, and
 of every report and refund result which row, event, refund and order it leaves.
 */
module PaymentRules {
  import opened Wrappers
  import opened Payments
  import Orders

  // ----- what leaves no trace -----

  /** An unverified callback proves nothing: unsigned, or about another gateway order, it changes nothing at all. */
  lemma UnverifiedCallbacksLeaveNoTrace(d: Desk, p: nat, copy: Payment, gatewayOrderId: string, signed: bool,
                                        fetched: GatewayPayment, signature: string, now: nat, fate: Fate)
    requires Valid(d) && (!signed || gatewayOrderId != copy.gatewayOrderId)
    ensures Do(d, Callback(p, copy, gatewayOrderId, signed, fetched, signature, now, fate)) == Outcome(d, false)
  {
  }

  /** The other requests that are turned away: what each guard asks, and whether it raises. */
  lemma RefusedRequestsLeaveNoTrace(d: Desk, step: Step)
    requires Valid(d)
    ensures step.Webhook? && step.processed ==> Do(d, step) == Outcome(d, false)
    ensures step.Reconcile? && step.copy.gatewayPaymentId == "" ==> Do(d, step) == Outcome(d, true)
    ensures step.Attempt? && step.seen != Orders.AwaitingPayment && step.seen != Orders.PaymentFailed
            ==> Do(d, step) == Outcome(d, false)
    ensures step.Repay? && !CanStillRefund(step.copy, step.amount) ==> Do(d, step) == Outcome(d, true)
  {
  }

  /** A captured or partly refunded payment with the amount still to give. */
  predicate CanStillRefund(copy: Payment, amount: int) {
    && (copy.status == Captured || copy.status == PartiallyRefunded)
    && 0 < amount <= copy.amount - copy.refunded
  }

  /** An attempt the buyer can still pay; a partly refunded one counts, as the terminal statuses leave it out. */
  predicate Open(status: PaymentStatus) {
    status == Created || status == Pending || status == Authorized || status == PartiallyRefunded
  }

  /** The payment carries one of the two ids, if they are given at all. */
  predicate AnswersTo(row: Payment, gatewayPaymentId: string, gatewayOrderId: string) {
    gatewayPaymentId == row.gatewayPaymentId != "" || gatewayOrderId == row.gatewayOrderId != ""
  }

  // ----- what a report stores -----

  /** The gateway says something the copy does not show: another status, or another payment of its own. */
  predicate IsNews(copy: Payment, g: GatewayPayment) {
    copy.status != g.status || copy.gatewayPaymentId != g.gatewayPaymentId
  }

  /** The copy with the gateway's answer over it; a signature or capture time it has is only ever added to. */
  predicate ShowsReport(row: Payment, copy: Payment, g: GatewayPayment, signature: string, now: nat) {
    && row.status == g.status && row.gatewayPaymentId == g.gatewayPaymentId && row.detail == g.detail
    && (signature != "" ==> row.signature == signature) && (signature == "" ==> row.signature == copy.signature)
    && row.capturedAt == (if copy.capturedAt.None? && g.status == Captured then Some(now) else copy.capturedAt)
    && row.order == copy.order && row.gatewayOrderId == copy.gatewayOrderId && row.amount == copy.amount
    && row.refunded == copy.refunded && row.refundTotal == copy.refundTotal
  }

  /** One more event at the end of a payment's log, the row as `row`, and no other payment touched. */
  predicate OnlyRowChanged(before: seq<Account>, after: seq<Account>, p: nat, row: Payment, event: PaymentEvent) {
    && p < |before| == |after|
    && after[p].row == row && after[p].events == before[p].events + [event]
    && forall q | 0 <= q < |before| && q != p :: after[q] == before[q]
  }

  /** A report the copy already shows changes nothing; any other is stored whole and logged. */
  lemma ReportSays(d: Desk, p: nat, copy: Payment, g: GatewayPayment, signature: string, now: nat, fate: Fate)
    requires Valid(d) && OnCopy(d, p, copy)
    ensures var done := Report(d, p, copy, g, signature, now, fate);
            if !IsNews(copy, g) then done == Outcome(d, false)
            else
              && p < |done.desk.accounts| && ShowsReport(done.desk.accounts[p].row, copy, g, signature, now)
              && OnlyRowChanged(d.accounts, done.desk.accounts, p, done.desk.accounts[p].row,
                                PaymentEvent(Some(copy.status), g.status))
              && done.desk.refunds == d.refunds && done.desk.hooks == d.hooks
              && (done.raised <==> fate != Completed && copy.status != g.status
                                   && (g.status == Captured || g.status == Failed))
  {
  }

  // ----- what a refund result stores -----

  /** The copy with the amount added to what it has refunded, told in full or in part. */
  predicate ShowsRefund(row: Payment, copy: Payment, amount: nat) {
    var full := copy.refunded + amount >= copy.amount;
    && row.refunded == copy.refunded + amount
    && row.status == (if full then Refunded else PartiallyRefunded)
    && row.refundTotal == (if full then Full else Partial)
    && row.order == copy.order && row.gatewayOrderId == copy.gatewayOrderId && row.amount == copy.amount
    && row.gatewayPaymentId == copy.gatewayPaymentId && row.detail == copy.detail
    && row.signature == copy.signature && row.capturedAt == copy.capturedAt
  }

  /** A result the loaded refund already shows changes nothing; any other is stored, on both rows if processed. */
  lemma SettleSays(d: Desk, k: nat, seen: RefundStatus, copy: Payment, outcome: RefundStatus, fate: Fate)
    requires Valid(d) && OnRefund(d, k, copy)
    ensures var done := Settle(d, k, seen, copy, outcome, fate);
            var p := d.refunds[k].payment;
            if outcome == Initiated || seen == outcome then done == Outcome(d, false)
            else
              && p < |done.desk.accounts| == |d.accounts| && done.desk.hooks == d.hooks
              && done.desk.refunds == d.refunds[k := d.refunds[k].(status := outcome)]
              && var row := done.desk.accounts[p].row;
                 && (if outcome == Processed then ShowsRefund(row, copy, d.refunds[k].amount)
                     else row == d.accounts[p].row)
                 && OnlyRowChanged(d.accounts, done.desk.accounts, p, row,
                                   PaymentEvent(None, if outcome == Processed then row.status else copy.status))
                 && (done.raised <==> fate != Completed)
  {
  }

  /** A refund that may start is a new row, pending or with the gateway's answer; a processed one is on the payment. */
  lemma RefundSays(d: Desk, p: nat, copy: Payment, amount: int, id: string, instant: Option<RefundStatus>, fate: Fate)
    requires Valid(d) && OnCopy(d, p, copy)
    ensures var done := InitiateRefund(d, p, copy, amount, id, instant, fate);
            var status := if instant.Some? then instant.value else Initiated;
            if !CanStillRefund(copy, amount) then done == Outcome(d, true) else
            && done.desk.refunds == d.refunds + [Refund(p, id, amount, status)]
            && p < |done.desk.accounts| == |d.accounts| && done.desk.hooks == d.hooks
            && (forall q | 0 <= q < |d.accounts| && q != p :: done.desk.accounts[q] == d.accounts[q])
            && (if status == Processed then ShowsRefund(done.desk.accounts[p].row, copy, amount)
                else done.desk.accounts[p].row == d.accounts[p].row)
            && (done.raised <==> status != Initiated && fate != Completed)
  {
    if CanStillRefund(copy, amount) && instant.Some? {
      var started := StartRefund(d, p, copy, amount, id);
      assert forall r <- started.refunds :: r in d.refunds || r == Refund(p, id, amount, Initiated);
      SettleSays(started, |d.refunds|, Initiated, copy, instant.value, fate);
    }
  }

  // ----- the two steps that do more than they dispatch -----

  lemma RepayStep(d: Desk, p: nat, copy: Payment, amount: int, id: string, instant: Option<RefundStatus>, fate: Fate)
    requires Valid(d) && OnCopy(d, p, copy)
    ensures Do(d, Repay(p, copy, amount, id, instant, fate)) == InitiateRefund(d, p, copy, amount, id, instant, fate)
  {
    RefundSays(d, p, copy, amount, id, instant, fate);
  }

  lemma WebhookStep(d: Desk, key: string, job: Job, now: nat, fate: Fate)
    requires Valid(d) && Loaded(d, job)
    ensures var done := Perform(d, JobAct(job, now, fate));
            Do(d, Webhook(key, false, job, now, fate))
            == Outcome(done.desk.(hooks := d.hooks[key := IsProcessed(d.hooks, key) || !done.raised]), done.raised)
  {
  }
}
