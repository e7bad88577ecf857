/**
 Payments, refunds and gateway events, over the shop of the module `Orders`.

 The gateway is an oracle: every fetch is an argument. A caller that loaded a
 payment row before a slow gateway call works on its own copy, which may be out
 of date, and saving it writes the whole row. `Fate` says what becomes of the
 pipeline that a commit schedules. Amounts are paise.
 */
module Payments {
  import opened Wrappers
  import Orders

  datatype PaymentStatus =
    | Created | Pending | Authorized | Captured | Failed | Cancelled | Refunded | PartiallyRefunded
  {
    /** `TERMINAL_STATUSES` */
    predicate Terminal() {
      Captured? || Failed? || Cancelled? || Refunded?
    }

    predicate Refundable() {
      Captured? || PartiallyRefunded?
    }
  }

  datatype RefundTotal = NoRefund | Partial | Full

  datatype RefundStatus = Initiated | Processed | Bounced

  /** A payment row. `detail` stands for method, reference, failure reason and raw response. */
  datatype Payment = Payment(
    order: nat, gatewayOrderId: string, gatewayPaymentId: string, status: PaymentStatus, amount: nat,
    refunded: nat, refundTotal: RefundTotal, capturedAt: Option<nat>, signature: string, detail: string)

  datatype PaymentEvent = PaymentEvent(before: Option<PaymentStatus>, after: PaymentStatus)

  /** A payment row with its append-only event log. */
  datatype Account = Account(row: Payment, events: seq<PaymentEvent>)

  datatype Refund = Refund(payment: nat, gatewayRefundId: string, amount: nat, status: RefundStatus)

  /** What the gateway says about a payment when it is asked. */
  datatype GatewayPayment = GatewayPayment(gatewayPaymentId: string, status: PaymentStatus, detail: string)

  /** `hooks` maps each dedupe key to whether its delivery has been processed. */
  datatype Desk = Desk(shop: Orders.Shop, accounts: seq<Account>, refunds: seq<Refund>, hooks: map<string, bool>)

  /** The scheduled pipeline completes, fails after its order transaction, or never gets that far. */
  datatype Fate = Completed | Interrupted | Lost

  /** What a webhook is about, by the gateway's ids. */
  datatype Notice =
    | PaymentNotice(gatewayPaymentId: string, gatewayOrderId: string)
    | RefundNotice(gatewayRefundId: string, result: RefundStatus)
    | OtherNotice

  /** A webhook with the rows it loaded; they may be out of date by the time it saves them. */
  datatype Job =
    | ReportJob(payment: nat, copy: Payment, fetched: Option<GatewayPayment>)
    | SettleJob(refund: nat, seen: RefundStatus, copy: Payment, outcome: RefundStatus)
    | NoJob

  /**
   `processed` is what a delivery read of its key's row, `seen` the status of the order a page loaded,
   and the copies are the payments each caller loaded.
   `reuse` is the payment page, which keeps a live attempt; a retry always starts a new one.
   */
  datatype Step =
    | Attempt(order: nat, seen: Orders.Status, total: nat, gatewayOrderId: string, reuse: bool)
    | Callback(payment: nat, copy: Payment, gatewayOrderId: string, signed: bool, fetched: GatewayPayment,
               signature: string, now: nat, fate: Fate)
    | Webhook(key: string, processed: bool, job: Job, now: nat, fate: Fate)
    | Reconcile(payment: nat, copy: Payment, fetched: GatewayPayment, now: nat, fate: Fate)
    | Repay(payment: nat, copy: Payment, amount: int, gatewayRefundId: string, instant: Option<RefundStatus>,
            fate: Fate)
    | InShop(step: Orders.Step)

  /** What a step comes down to once its guards are passed; idle ones may still raise. */
  datatype Act =
    | Applying(payment: nat, copy: Payment, g: GatewayPayment, signature: string, now: nat, fate: Fate)
    | Settling(refund: nat, seen: RefundStatus, copy: Payment, outcome: RefundStatus, fate: Fate)
    | Repaying(payment: nat, copy: Payment, amount: int, gatewayRefundId: string, instant: Option<RefundStatus>,
               fate: Fate)
    | Attempting(order: nat, total: nat, gatewayOrderId: string)
    | Shopping(step: Orders.Step)
    | Idle(raises: bool)

  /** The new desk, and whether the call raised. */
  datatype Outcome = Outcome(desk: Desk, raised: bool)

  ghost predicate Valid(d: Desk) {
    && Orders.Valid(d.shop)
    && (forall a <- d.accounts :: a.row.order < |d.shop.orders|)
    && (forall r <- d.refunds :: r.payment < |d.accounts| && r.amount > 0)
  }

  /** A row read earlier: its keys never change. */
  predicate CopyOf(copy: Payment, row: Payment) {
    copy.order == row.order && copy.gatewayOrderId == row.gatewayOrderId && copy.amount == row.amount
  }

  predicate OnCopy(d: Desk, p: nat, copy: Payment) {
    p < |d.accounts| && CopyOf(copy, d.accounts[p].row)
  }

  /** Likewise for a refund with the payment it was loaded with. */
  predicate OnRefund(d: Desk, k: nat, copy: Payment) {
    k < |d.refunds| && OnCopy(d, d.refunds[k].payment, copy)
  }

  // ----- the pipeline on the shop -----

  /** The shop steps a scheduled pipeline takes. */
  function CaptureSteps(shop: Orders.Shop, order: nat, fate: Fate): seq<Orders.Step>
    requires order < |shop.orders|
  {
    if fate == Lost || shop.orders[order].status != Orders.AwaitingPayment then []
    else if fate == Interrupted then [Orders.CaptureReported(order)]
    else [Orders.CaptureReported(order), Orders.OpenShipment(order)]
  }

  function FailureSteps(order: nat, fate: Fate): seq<Orders.Step> {
    if fate == Lost then [] else [Orders.FailureReported(order)]
  }

  function RefundSteps(order: nat, full: bool, fate: Fate): seq<Orders.Step> {
    if fate == Lost then [] else [Orders.RefundReported(order, full)]
  }

  // ----- applying what the gateway says -----

  /** The row a report leaves: the caller's copy, overwritten. */
  function Reported(copy: Payment, g: GatewayPayment, signature: string, now: nat): Payment {
    copy.(gatewayPaymentId := g.gatewayPaymentId, status := g.status, detail := g.detail,
          signature := if signature != "" then signature else copy.signature,
          capturedAt := if g.status == Captured && copy.capturedAt.None? then Some(now) else copy.capturedAt)
  }

  predicate AlreadyApplied(copy: Payment, g: GatewayPayment) {
    copy.status == g.status && copy.gatewayPaymentId == g.gatewayPaymentId
  }

  /** The pipeline a report schedules, as shop steps; decided by the caller's copy. */
  function ReportSteps(shop: Orders.Shop, copy: Payment, g: GatewayPayment, fate: Fate): seq<Orders.Step>
    requires copy.order < |shop.orders|
  {
    if g.status == Captured && copy.status != Captured then CaptureSteps(shop, copy.order, fate)
    else if g.status == Failed && copy.status != Failed then FailureSteps(copy.order, fate)
    else []
  }

  predicate Schedules(copy: Payment, g: GatewayPayment) {
    (g.status == Captured && copy.status != Captured) || (g.status == Failed && copy.status != Failed)
  }

  function Report(d: Desk, p: nat, copy: Payment, g: GatewayPayment, signature: string, now: nat, fate: Fate): Outcome
    requires Valid(d) && OnCopy(d, p, copy)
  {
    if AlreadyApplied(copy, g) then Outcome(d, false)
    else
      assert d.accounts[p] in d.accounts;
      var account := Account(Reported(copy, g, signature, now),
                             d.accounts[p].events + [PaymentEvent(Some(copy.status), g.status)]);
      Outcome(d.(accounts := d.accounts[p := account],
                 shop := Orders.Run(d.shop, ReportSteps(d.shop, copy, g, fate))),
              Schedules(copy, g) && fate != Completed)
  }

  // ----- refunds -----

  function TotalFor(refunded: nat, amount: nat): RefundTotal {
    if refunded >= amount then Full else Partial
  }

  function Repaid(copy: Payment, amount: nat): Payment {
    var total := TotalFor(copy.refunded + amount, copy.amount);
    copy.(refunded := copy.refunded + amount, refundTotal := total,
          status := if total == Full then Refunded else PartiallyRefunded)
  }

  predicate Settles(seen: RefundStatus, outcome: RefundStatus) {
    outcome != Initiated && seen != outcome
  }

  /** A refund outcome lands, judged by the refund's status as loaded and saved over the loaded payment. */
  function Settle(d: Desk, k: nat, seen: RefundStatus, copy: Payment, outcome: RefundStatus, fate: Fate): Outcome
    requires Valid(d) && OnRefund(d, k, copy)
  {
    if !Settles(seen, outcome) then Outcome(d, false)
    else
      var r := d.refunds[k];
      var account := d.accounts[r.payment];
      assert account in d.accounts;
      var row := if outcome == Processed then Repaid(copy, r.amount) else account.row;
      var shown := if outcome == Processed then row.status else copy.status;
      var steps := if outcome == Processed then RefundSteps(copy.order, row.refundTotal == Full, fate) else [];
      Outcome(Desk(Orders.Run(d.shop, steps),
                   d.accounts[r.payment := Account(row, account.events + [PaymentEvent(None, shown)])],
                   d.refunds[k := r.(status := outcome)],
                   d.hooks),
              fate != Completed)
  }

  predicate MayRepay(copy: Payment, amount: int) {
    copy.status.Refundable() && amount > 0 && copy.refunded + amount <= copy.amount
  }

  function StartRefund(d: Desk, p: nat, copy: Payment, amount: nat, gatewayRefundId: string): Desk
    requires p < |d.accounts|
  {
    var a := d.accounts[p];
    d.(refunds := d.refunds + [Refund(p, gatewayRefundId, amount, Initiated)],
       accounts := d.accounts[p := a.(events := a.events + [PaymentEvent(Some(copy.status), copy.status)])])
  }

  function InitiateRefund(d: Desk, p: nat, copy: Payment, amount: int, gatewayRefundId: string,
                          instant: Option<RefundStatus>, fate: Fate): Outcome
    requires Valid(d) && OnCopy(d, p, copy)
  {
    if !MayRepay(copy, amount) then Outcome(d, true)
    else
      var started := StartRefund(d, p, copy, amount, gatewayRefundId);
      if instant.None? then Outcome(started, false)
      else Settle(started, |d.refunds|, Initiated, copy, instant.value, fate)
  }

  // ----- webhooks -----

  predicate Matches(row: Payment, gatewayPaymentId: string, gatewayOrderId: string) {
    || (gatewayPaymentId != "" && row.gatewayPaymentId == gatewayPaymentId)
    || (gatewayOrderId != "" && row.gatewayOrderId == gatewayOrderId)
  }

  /** The newest payment with one of the gateway's ids. */
  function Find(accounts: seq<Account>, gatewayPaymentId: string, gatewayOrderId: string): (r: Option<nat>)
    ensures r.Some? ==> r.value < |accounts|
  {
    if accounts == [] then None
    else
      var n := |accounts| - 1;
      if Matches(accounts[n].row, gatewayPaymentId, gatewayOrderId) then Some(n)
      else Find(accounts[..n], gatewayPaymentId, gatewayOrderId)
  }

  /** It is the newest: every later payment answers to neither id, and with none found no payment does. */
  lemma {:induction false} FindsTheNewest(accounts: seq<Account>, gatewayPaymentId: string, gatewayOrderId: string)
    ensures var found := Find(accounts, gatewayPaymentId, gatewayOrderId);
            && (found.Some? ==> Matches(accounts[found.value].row, gatewayPaymentId, gatewayOrderId))
            && forall q | (if found.Some? then found.value + 1 else 0) <= q < |accounts| ::
                 !Matches(accounts[q].row, gatewayPaymentId, gatewayOrderId)
  {
    if accounts != [] {
      FindsTheNewest(accounts[..|accounts| - 1], gatewayPaymentId, gatewayOrderId);
    }
  }

  function FindRefund(refunds: seq<Refund>, gatewayRefundId: string): (r: Option<nat>)
    ensures r.Some? ==> r.value < |refunds| && refunds[r.value].gatewayRefundId == gatewayRefundId
  {
    if refunds == [] then None
    else
      var n := |refunds| - 1;
      if refunds[n].gatewayRefundId == gatewayRefundId then Some(n) else FindRefund(refunds[..n], gatewayRefundId)
  }

  lemma {:induction false} FindsTheNewestRefund(refunds: seq<Refund>, gatewayRefundId: string)
    ensures var found := FindRefund(refunds, gatewayRefundId);
            forall q | (if found.Some? then found.value + 1 else 0) <= q < |refunds| ::
              refunds[q].gatewayRefundId != gatewayRefundId
  {
    if refunds != [] {
      FindsTheNewestRefund(refunds[..|refunds| - 1], gatewayRefundId);
    }
  }

  /** What a webhook loads: the newest payment with the gateway's ids, or the refund and its payment. */
  function Load(d: Desk, notice: Notice, fetched: Option<GatewayPayment>): (job: Job)
    requires Valid(d)
    ensures Loaded(d, job)
  {
    match notice
    case PaymentNotice(gatewayPaymentId, gatewayOrderId) =>
      var p := Find(d.accounts, gatewayPaymentId, gatewayOrderId);
      if p.None? then NoJob else ReportJob(p.value, d.accounts[p.value].row, fetched)
    case RefundNotice(gatewayRefundId, result) =>
      var k := FindRefund(d.refunds, gatewayRefundId);
      if k.None? then NoJob
      else
        var r := d.refunds[k.value];
        assert r in d.refunds;
        SettleJob(k.value, r.status, d.accounts[r.payment].row, result)
    case OtherNotice => NoJob
  }

  /** The rows a webhook holds are rows of the desk, as they are now or as they were. */
  predicate Loaded(d: Desk, job: Job) {
    match job
    case ReportJob(p, copy, _) => OnCopy(d, p, copy)
    case SettleJob(k, _, copy, _) => OnRefund(d, k, copy)
    case NoJob => true
  }

  predicate IsProcessed(hooks: map<string, bool>, key: string) {
    key in hooks && hooks[key]
  }

  // ----- payment attempts -----

  predicate MayPay(status: Orders.Status) {
    status == Orders.AwaitingPayment || status == Orders.PaymentFailed
  }

  /** The newest attempt on an order that no terminal status has closed. */
  function LiveAttempt(accounts: seq<Account>, order: nat): Option<nat> {
    if accounts == [] then None
    else
      var n := |accounts| - 1;
      if accounts[n].row.order == order && !accounts[n].row.status.Terminal() then Some(n)
      else LiveAttempt(accounts[..n], order)
  }

  function FreshAccount(order: nat, amount: nat, gatewayOrderId: string): Account {
    Account(Payment(order, gatewayOrderId, "", Created, amount, 0, NoRefund, None, "", ""),
            [PaymentEvent(None, Created)])
  }

  // ----- one step of the desk -----

  /** Steps of the shop that only the pipeline of a payment or refund takes. */
  predicate ByPayment(step: Orders.Step) {
    step.CaptureReported? || step.OpenShipment? || step.FailureReported? || step.RefundReported?
  }

  predicate Ready(d: Desk, act: Act) {
    match act
    case Applying(p, copy, _, _, _, _) => OnCopy(d, p, copy)
    case Settling(k, _, copy, _, _) => OnRefund(d, k, copy)
    case Repaying(p, copy, _, _, _, _) => OnCopy(d, p, copy)
    case Attempting(order, _, _) => order < |d.shop.orders|
    case Shopping(step) => !ByPayment(step)
    case Idle(_) => true
  }

  function JobAct(job: Job, now: nat, fate: Fate): Act {
    match job
    case ReportJob(p, copy, fetched) =>
      if fetched.None? then Idle(true) else Applying(p, copy, fetched.value, "", now, fate)
    case SettleJob(k, seen, copy, outcome) => Settling(k, seen, copy, outcome, fate)
    case NoJob => Idle(false)
  }

  /** The guards of every entry point, on what its caller holds. */
  function ActOf(d: Desk, step: Step): (act: Act)
    ensures Ready(d, act)
  {
    match step
    case Attempt(order, seen, total, gatewayOrderId, reuse) =>
      if order < |d.shop.orders| && MayPay(seen)
         && !(reuse && LiveAttempt(d.accounts, order).Some?)
      then Attempting(order, total, gatewayOrderId) else Idle(false)
    case Callback(p, copy, gatewayOrderId, signed, fetched, signature, now, fate) =>
      if OnCopy(d, p, copy) && gatewayOrderId == copy.gatewayOrderId && signed
      then Applying(p, copy, fetched, signature, now, fate) else Idle(false)
    case Webhook(_, processed, job, now, fate) =>
      if !processed && Loaded(d, job) then JobAct(job, now, fate) else Idle(false)
    case Reconcile(p, copy, fetched, now, fate) =>
      if OnCopy(d, p, copy) && copy.gatewayPaymentId != ""
      then Applying(p, copy, fetched, "", now, fate) else Idle(true)
    case Repay(p, copy, amount, gatewayRefundId, instant, fate) =>
      if OnCopy(d, p, copy) then Repaying(p, copy, amount, gatewayRefundId, instant, fate) else Idle(true)
    case InShop(s) => if ByPayment(s) then Idle(false) else Shopping(s)
  }

  function Perform(d: Desk, act: Act): Outcome
    requires Valid(d) && Ready(d, act)
  {
    match act
    case Applying(p, copy, g, signature, now, fate) => Report(d, p, copy, g, signature, now, fate)
    case Settling(k, seen, copy, outcome, fate) => Settle(d, k, seen, copy, outcome, fate)
    case Repaying(p, copy, amount, id, instant, fate) => InitiateRefund(d, p, copy, amount, id, instant, fate)
    case Attempting(order, total, id) => Outcome(d.(accounts := d.accounts + [FreshAccount(order, total, id)]), false)
    case Shopping(step) => Outcome(d.(shop := Orders.Apply(d.shop, step)), false)
    case Idle(raises) => Outcome(d, raises)
  }

  /** A delivery that found its key unprocessed marks it, unless dispatch raised; a mark is never taken back. */
  function Marked(hooks: map<string, bool>, step: Step, raised: bool): map<string, bool> {
    if step.Webhook? && !step.processed then hooks[step.key := IsProcessed(hooks, step.key) || !raised] else hooks
  }

  function Do(d: Desk, step: Step): Outcome
    requires Valid(d)
  {
    var done := Perform(d, ActOf(d, step));
    Outcome(done.desk.(hooks := Marked(d.hooks, step, done.raised)), done.raised)
  }
}
