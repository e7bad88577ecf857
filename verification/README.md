# A verified model of the shop's orders, stock, payments and money

One store sells products and variants. Every product and variant carries two
counters, units on hand and units held for unpaid checkouts, and every change to
them leaves a ledger row. Orders hold units from checkout until they are paid,
fail, expire or are cancelled; payments are reported by client callbacks, webhook
deliveries and staff reconciles that race each other; refunds, returns and
purchase orders feed back into the same counters and rows. The project models
those services statement by statement and proves what they keep over every run.

| File | What it holds |
|---|---|
| `Stock.dfy`, `StockRoom.dfy` | counters and ledger as values, closed forms of the line loops; the stock service with its loops |
| `Orders.dfy`, `Store.dfy` | the order lifecycle as one transition system; the views, tasks and handlers over mutable rows |
| `AuditTrail.dfy`, `OrderMoves.dfy`, `Ownership.dfy`, `Conservation.dfy` | whole-run theorems: legal trails and the cause of every move, sold once and restored once, who owns each held unit, no overselling, conservation |
| `Payments.dfy`, `PaymentRules.dfy`, `PaymentService.dfy` | payment rows, webhooks, refunds, as steps on stale copies; what each stores and refuses; the service methods |
| `PaymentRuns.dfy`, `PaymentLog.dfy` | refinement to shop runs; the event log, captures behind confirmed orders, terminal statuses |
| `Confluence.dfy`, `LostPipelines.dfy` | racing reports and deduplication; exactly when an order hears of its payment, pipelines lost or interrupted |
| `RefundAccounting.dfy` | refund totals, and what keeps them within the payment |
| `Returns.dfy`, `ReturnMoves.dfy`, `ReturnService.dfy` | the return workflow and its quantity bounds; the cause of every move; the service methods |
| `Purchasing.dfy`, `PurchaseDesk.dfy` | purchase orders, receipts and low-stock reorders; the service methods |
| `Rounding.dfy`, `Tax.dfy`, `Discounts.dfy`, `Profitability.dfy` | half-even rounding, GST, discounts, the profitability report |
| `Numerals.dfy`, `Invoices.dfy`, `Slugs.dfy` | decimal printing, invoice series, unique slugs |
| `Wrappers.dfy` | `Option`, `Min`, `Max` |

A transaction is one step. Rows live in sequences indexed by their id. Whatever a
caller loaded before a transaction is an argument (`seen`, `copy`, `left`,
`processed`), so it may be out of date; what the code re-reads under a lock is taken
from the current row.
The gateway, the clock, the carrier and the forms are arguments too. What runs
after a commit may be completed, interrupted or lost (`Fate`), so no liveness is
claimed. Amounts are whole paise, and a method returns false, `None` or a flag
where the code raises or returns early.

## Where the code and its comments part

The model follows the code; each item is a lemma below.

- Cancelling an order whose payment already failed releases its hold a second
  time, from units that other orders hold (`Ownership.OwnershipStep`); a run of
  seven steps confirms two orders on one unit (`Conservation.CancelAfterFailureOversells`).
- A processed refund moves its order from any status, so an unpaid order can
  leave `AWAITING_PAYMENT` with its units still held (`Conservation.RefundStrandsTheHold`);
  the service gets there through a capture whose pipeline was lost
  (`LostPipelines.ALostCaptureRefundedStrandsTheHold`).
- Terminal payment statuses are not enforced (`PaymentLog.TerminalIsNotEnforced`), and a
  capture for an order no longer awaiting payment keeps the money and confirms
  nothing (`Confluence.CaptureConfirmsOnlyWaitingOrders`).
- The capture pipeline is called safe to repeat, but once the payment row has committed
  nobody who loads it repeats it. If the pipeline was lost, callers that load the payment
  afterwards count the capture as already applied (`Confluence.LosingThePipeline`); only one
  still holding the row from before confirms the order (`Confluence.ALostPipelineStaysLost`,
  and for every step and run `LostPipelines.ConfirmedRunIff`). If it was interrupted after the
  order was confirmed, even that caller finds the order no longer waiting, and the shipment is
  never opened (`LostPipelines.AnInterruptedPipelineStaysInterrupted`).
- Refunds still pending are not counted when the next one is started
  (`RefundAccounting.PendingRefundsAreNotCounted`), and payment rows are saved whole
  from stale copies (`RefundAccounting.AccountedStep`).
- Two overlapping deliveries of one webhook both dispatch when both read its key before
  either marked it (`Confluence.KeysCompleteOnce`).
- The stale-order sweep says it skips orders paid since its query; they are still
  cancellable, so it cancels them (`Store.Store.CancelStaleUnpaidOrders`).
- A return request may name one order item on two lines (`Returns.TwoLinesSlipPast`), two
  requests may race past the check (`Returns.RacingRequestsSlipPast`), a stale copy or a
  refund linked to any request wakes a closed one (`Returns.WithinStep`), and a stale receipt
  writes its rows again (`Returns.ShelvedStep`); an outcome the gateway reports on the spot
  is overwritten (`Returns.InstantOutcomeIsOverwritten`).
- The shipment sync says it carries forward progress only; it moves cancelled and refunded
  orders back to shipped or delivered (`AuditTrail.ShipmentsReopenOrders`).
- A receipt against an out-of-date purchase-order line puts units on the shelf that
  the line forgets (`Purchasing.BalancedStep`).
- An invoice's taxable amount and tax add up to the undiscounted subtotal, not to its
  own total (`Tax.InvoiceIgnoresTheDiscount`), and its series has a gap if a call is cut
  between taking the number and writing the row, or another call writes the order's invoice
  after this one found none (`Invoices.GaplessStep`); the captured order's status check under
  its lock keeps the latter from happening today.

## Model

| member | source | states |
|---|---|---|
| Stock.PostLinesClosed | inventory/services.py:63-161 | releasing, selling or restoring line by line, with every clamp, leaves each target as one clamped step by the total over its lines, repeated targets and lines without one included |
| Stock.ReserveLinesClosed | inventory/services.py:25-60 | a reservation succeeds if and only if every target's total is available to sell, and then posts every line |
| Stock.ShortReport | inventory/services.py:35-51 | a refusal names the target of the first line that falls short and what the earlier lines had left of it |
| Stock.LineOrderIrrelevant | inventory/services.py:34-161 | permuted lines leave the same counters and are reserved or refused alike |
| Stock.ReserveReleaseRoundTrip | inventory/services.py:25-95 | reserve then release gives back every counter, for any lines |
| Stock.ReserveSellRestoreRoundTrip | inventory/services.py:25-188 | reserve, sell, then restore gives back every counter, for any lines |
| Stock.PostLinesReplays | inventory/models.py:41-47 | rows written through the clamps still sum to the counters |
| Stock.PostLinesRows | inventory/services.py:109-188 | a loop leaves exactly one row per line with a target, in line order, and none for other orders |
| Stock.SaleIsExact | inventory/services.py:98-161 | no row of a sale is cut short by a floor if and only if, for every target, all its units are held and on hand |
| Stock.DemandByKeys | inventory/services.py:36-37 | a line with a variant asks for its units of that variant, one without of its product, and of nothing else |
| Stock.KeylessLinesMoveNothing | inventory/services.py:36-38 | lines whose product and variant are both gone move no counter and leave no row |
| StockRoom.StockRoom.ReserveStock | inventory/services.py:25-60 | holds every line, by its variant or else its product, if and only if each counter has the units named so beside what is held; else, rolled back, changes neither counters nor ledger, and the error is the first shortfall |
| StockRoom.StockRoom.ReleaseReservation | inventory/services.py:63-95 | takes the units of each variant's lines, and of each product's lines without a variant, off what is held, floored at zero, on-hand counts untouched |
| StockRoom.StockRoom.ConvertReservationToSale | inventory/services.py:98-161 | takes the same totals by key off both counters, each floored at zero |
| StockRoom.StockRoom.RestoreStockForCancellation | inventory/services.py:164-188 | puts the same totals by key back on hand, holds untouched |
| StockRoom.StockRoom.PutOnShelf | inventory/services.py:191-268 | refuses anything but a positive quantity, else adds exactly it to one on-hand count, with one row of its kind and document for it; no other counter moves |
| StockRoom.StockRoom.RecordAdjustment | inventory/services.py:271-297 | refuses zero; else one on-hand count becomes the corrected one, or zero where that would be negative, holds and other counters stay, and the one row records the difference really made |
| Stock.CorrectionsComeBack | inventory/services.py:271-297 | a correction followed by its opposite restores every counter if and only if it did not reach the floor |
| Orders.SoftCheckIsRedundant | cart/views.py:52-55 | the friendly stock check before checkout never refuses a cart the reservation itself would cover |
| Orders.LinesKept | cart/models.py:336-353 | no transaction edits or removes an order's lines |
| Orders.ShelfStepsAreTheService | inventory/services.py:191-297 | deliveries, returned units and corrections of a run are the stock service's own, with nothing else moved |
| AuditTrail.EveryRunBooked | cart/signals.py:39-62 | in every run each order's history is a connected path of legal edges from awaiting payment to its status, paid orders were sold, and the ledger shows each order's lines sold at most once and restored at most once, only after the sale |
| AuditTrail.BookedStep | payments/pipeline.py:34-44 | every transaction keeps all of that, whatever stale status its caller saw |
| AuditTrail.DecisionFlags | cart/services.py:28-45 | a sale happens only to an order never sold, a restoration only to one sold and not yet restored |
| AuditTrail.ExpiredIsFinal | cart/models.py:218-243 | an expired order changes status if and only if a refund is reported for it |
| AuditTrail.EveryRunReplays | inventory/models.py:41-47 | after every run each counter is its opening value plus the sums of its own rows |
| AuditTrail.ShipmentDrivesItsOrder | fulfillment/signals.py:22-43 | on a fresh order copy, a shipment on the way makes its order shipped, one handed over delivered, and any other status leaves the order and the stock alone |
| AuditTrail.ShipmentsReopenOrders | fulfillment/signals.py:35-43 | a cancelled or refunded order is moved back into a paid status if and only if its shipment is saved on the way or handed over and the order copy behind it stands elsewhere |
| OrderMoves.EveryMoveHasItsCause | cart/models.py:218-243 | over every step and order: the order newly stands in a status if and only if the one transaction that leads there passes its guard, spelled out for each of the eleven statuses |
| OrderMoves.StockFollowsTheOrder | cart/services.py:36-45 | which of those transitions hold, sell, release or put back the lines of the order, and that nothing else does |
| OrderMoves.RowsFollowTheOrder | inventory/services.py:25-188 | over every step, an order's ledger rows of each kind grow by its own lines once if the step holds, sells, releases or puts them back, and not at all otherwise |
| OrderMoves.RowsOfANewOrder | cart/views.py:164-188 | a placed order's first rows are those of its hold, under its own number |
| OrderMoves.EveryRunTravelled | fulfillment/signals.py:22-43 | over every run, an order that says shipped or delivered has a shipment that was on the way or handed over |
| Ownership.StepBalance | payments/pipeline.py:27-83 | what any step does to the held units of a target and to what unpaid orders are entitled to: they move together, except in two named cases |
| Ownership.OwnershipStep | cart/services.py:31-45 | held units equal the units of unpaid orders after a step if and only if the step is neither a cancellation after a failed payment that finds units to take, nor a refund of an unpaid order with units |
| Ownership.EveryRunOwned | inventory/services.py:25-161 | over every run from an empty shop: no refund of unpaid orders, never more held than owed; no cancellation after failure, never less; neither, exactly equal for every target |
| Ownership.BackedStep | inventory/services.py:271-297 | held units stay on hand after a step if and only if the step is not a correction below them |
| Ownership.EveryRunBacked | inventory/services.py:25-60 | without such corrections, held units are on hand in every reachable shop |
| Ownership.CaptureIsExact | inventory/services.py:98-161 | where nothing is short and holds are on hand, a capture takes exactly the ordered units off both counters and never meets a floor |
| Ownership.CaptureMeetsNoFloor | inventory/services.py:98-161 | a capture of a waiting order takes exactly its units, no floor met, if and only if they are all held and on hand |
| Conservation.ConservedStep | inventory/services.py:98-188 | on hand plus with buyers equals opening plus what came from outside after a step if and only if the step is not a capture of a waiting order that wants more of some target than is on hand |
| Conservation.EveryRunWithoutOversalesConserved | inventory/services.py:98-297 | over every run without such captures units are conserved, whatever corrections and cancellations do to the holds |
| Conservation.SoundRunsDoNotOversell | inventory/services.py:25-161 | runs without cancellations after failure that take units and corrections below holds have no such capture |
| Conservation.EveryRunConserved | inventory/services.py:98-297 | over every run without cancellations after failure and corrections below holds: held units are on hand, whichever order is paid next gets exactly its units with no floor met, and on hand plus with buyers equals opening plus what came from outside |
| Conservation.CancelAfterFailureOversells | cart/services.py:36-40 | a concrete run, with no correction, delivery, return or refund, that confirms two orders on one unit |
| Conservation.RefundStrandsTheHold | payments/pipeline.py:69-76 | from any shop in order, a refund reported for an unpaid order leaves exactly its units held for nobody |
| Store.Store.Checkout | cart/views.py:117-221 | places an awaiting-payment order holding its lines, or changes nothing |
| Store.Store.PaymentRetry | cart/views.py:326-357 | re-reserves only after a failed payment; says whether a new attempt may start |
| Store.Store.OnPaymentCaptured | payments/pipeline.py:27-46 | sells and confirms once under the lock, then opens the shipment unless interrupted |
| Store.Store.CreateShipment | fulfillment/services.py:94-97 | opens a pending shipment for an order without one |
| Store.Store.OnPaymentFailed | payments/pipeline.py:49-64 | releases and fails an order only while it awaits payment |
| Store.Store.OnRefundProcessed | payments/pipeline.py:67-76 | sets the refund status from any status |
| Store.Store.CancelOrder | cart/services.py:16-50 | cancels if and only if both the caller's copy and the locked row stand where cancelling is allowed, packed and accepted included; restores paid orders, releases the others |
| Store.Store.AdvanceOrderStatus | cart/services.py:68-99 | advances if and only if both copy and row stand at the expected status |
| Store.Store.AcceptOrder | cart/services.py:53-60 | leaves the order accepted if copy and row both say payment confirmed, and changes nothing otherwise |
| Store.Store.MarkOrderPacked | cart/services.py:63-65 | leaves the order packed if copy and row both say accepted, and changes nothing otherwise |
| Store.Store.SaveShipment | fulfillment/signals.py:35-69 | records the shipment's change; the order becomes shipped while it is on the way, delivered once handed over, unless the order copy behind the shipment says so already |
| Store.Store.SyncShipmentTracking | fulfillment/services.py:120-145 | saves a carrier status only when it is recognised and new |
| Store.Store.ReleaseExpiredReservations | inventory/tasks.py:28-46 | expires exactly those orders found that still await payment, releases their holds, leaves every other row, and counts them |
| Store.Store.CancelStaleUnpaidOrders | cart/tasks.py:31-53 | cancels exactly those orders found that are still cancellable, and counts them |
| Store.ExpirySweep | inventory/tasks.py:34-41 | the sweep's run moves the due orders and no other, in any order of finding |
| Store.CancellationSweep | cart/tasks.py:39-49 | the same for the stale sweep, with the statuses its query saw |
| PaymentService.PaymentService.StartAttempt | cart/views.py:287-323 | keeps an open attempt, if asked to, or starts one for the total of the order, only for orders whose loaded copy may still be paid |
| PaymentService.LiveAttemptIsLive | cart/views.py:302 | the attempt reused is the order's newest that no terminal status has closed |
| PaymentService.PaymentService.ApplyGatewayPaymentState | payments/services.py:201-241 | skips what the copy already says; else stores the copy with status, gateway id, details, signature and capture time from the report, logs one event and touches no other payment, and runs the pipeline the copy calls for |
| PaymentService.PaymentService.VerifyClientCallback | payments/services.py:69-113 | unsigned, or about another gateway order, changes nothing and returns false; else stores the fetched state field by field; true exactly when captured |
| PaymentRules.UnverifiedCallbacksLeaveNoTrace | payments/services.py:84-105 | from every desk, a callback that is unsigned or names another gateway order leaves payments, refunds, keys and shop as they were |
| PaymentRules.RefusedRequestsLeaveNoTrace | payments/services.py:243-273 | so does a delivery whose key was read as processed, a reconcile without a gateway id, an attempt on an order that may not be paid, and a refund of a payment not captured or partly refunded or beyond what is left |
| PaymentRules.ReportSays | payments/services.py:201-241 | every field of the row a report stores, the event it logs, and when the call raises |
| PaymentRules.SettleSays | payments/services.py:300-342 | every field of the refund and payment rows a refund result stores, full or partial by what the copy had refunded |
| PaymentRules.RefundSays | payments/services.py:262-298 | which refund row and payment row a started refund leaves, pending or settled on the spot |
| PaymentService.PaymentService.ProcessWebhook | payments/services.py:115-151 | an unsigned delivery leaves no trace, one that read its key as processed is skipped, and the key is marked only when dispatch did not raise, keeping any mark made meanwhile |
| PaymentService.PaymentService.LoadForWebhook | payments/services.py:165-199 | loads the newest payment with one of the gateway's ids, none only if no payment has one; or the refund with its payment |
| Payments.FindsTheNewest | payments/services.py:187-199 | the payment found answers to one of the ids and no newer one answers to either; none is found only if none does |
| PaymentService.PaymentService.DispatchWebhookEvent | payments/services.py:153-185 | applies the report or the refund outcome over the rows it loaded, which may be out of date |
| PaymentService.PaymentService.ReconcilePayment | payments/services.py:243-260 | refuses a payment the gateway never saw, else applies what it fetched |
| PaymentService.PaymentService.InitiateRefund | payments/services.py:262-298 | refuses by the caller's copy, else logs a pending refund and settles it if the gateway did |
| PaymentService.PaymentService.ApplyRefundResult | payments/services.py:300-342 | judges a final outcome by the loaded refund, saves it over the loaded payment, and runs the refund pipeline after a processed one |
| PaymentRuns.EveryDeskRunIsAShopRun | payments/services.py:201-241 | the shop inside any run of attempts, callbacks, webhooks, reconciles and refunds, with any pipeline lost or cut, is a run of the shop, so the audit theorems hold for it |
| PaymentRuns.LoadedStays | payments/services.py:165-185 | what a webhook loaded stays good to save on after any run, so its staleness is never ruled out |
| PaymentLog.LoggedStep | payments/services.py:286-292 | every payment's last event carries its status after a step if and only if the step neither starts an unprocessed refund nor settles a bounced one on a copy with another status |
| PaymentLog.EveryRunLogged | payments/services.py:226-232 | without such steps, the log is in line in every run |
| PaymentLog.NothingShipsUnpaid | cart/models.py:186-196 | in every run an order in a paid status, or with a shipment, has a payment of its own with a logged change from another status to captured |
| PaymentLog.TerminalIsNotEnforced | payments/models.py:48-51 | over every step, a payment leaves its status, terminal or not, if and only if a report names another status that the caller's copy does not already show, or a refund is processed on a copy that leads elsewhere |
| PaymentLog.SteadyUnlessLeft | payments/models.py:48-51 | over any run a payment keeps its status throughout if and only if none of those steps occurs |
| PaymentLog.AnyTerminalStatusCanBeLeft | payments/services.py:201-241 | one fresh report takes a payment from any terminal status to any other |
| Confluence.AnyOrderIsOnce | payments/services.py:201-241 | any mix and order of callbacks, deliveries and reconciles, on fresh or stale rows, with overlapping deliveries of one key and any pipelines lost or interrupted, applies one capture to the payment exactly once if any lands, and not at all otherwise; the shop sees the first pipeline that reaches it and no other |
| Confluence.ConfirmedIffReached | payments/services.py:201-241 | after such a race the order is confirmed if and only if some sighting lands on a row not yet captured, being first or stale, with its pipeline not lost; it has its shipment if and only if the first that does so completes |
| Confluence.AnyTwoMixesAgree | payments/services.py:115-151 | with no pipeline cut short, two mixes leave the same shop, ledger, refunds and payment, but for who signed and when it was noticed; the order is confirmed |
| Confluence.PaidOnce | payments/pipeline.py:27-46 | after a capture pipeline that completed or was interrupted, running it again changes nothing |
| Confluence.LosingThePipeline | payments/services.py:202-210 | a delivery whose pipeline is lost leaves the payment captured, the order waiting and the key open |
| Confluence.ALostPipelineStaysLost | payments/services.py:202-210 | if the first sighting to land is lost, the order is confirmed if and only if a later one still holding the row from before lands and is not lost |
| LostPipelines.ConfirmedStepIff | payments/services.py:233-241 | over every step, an order becomes confirmed if and only if the step applies a capture of its payment, on a copy not yet captured and with the pipeline not lost, while the order awaits payment; its shipment is opened if and only if that pipeline also completes |
| LostPipelines.ConfirmedRunIff | payments/pipeline.py:27-46 | over every run, an order is confirmed, or has a shipment, if and only if it was at the start or some step of the run is such a step |
| LostPipelines.FailedStepIff | payments/services.py:237-241 | over every step, an order's payment newly fails if and only if the step applies a failure of its payment, on a copy not yet failed and with the pipeline not lost, while the order awaits payment |
| LostPipelines.RefundedStepIff | payments/services.py:319-337 | over every step, an order is newly refunded, in full or in part, if and only if the step processes a refund of its payment whose copy says so, with the pipeline not lost |
| LostPipelines.AnInterruptedPipelineStaysInterrupted | payments/pipeline.py:36-44 | a confirmed order without a shipment has none after any run |
| LostPipelines.ALostCaptureRefundedStrandsTheHold | payments/pipeline.py:67-76 | from any race in a shop in order, a capture whose pipeline is lost, then a full refund on a fresh copy, leave the order refunded and exactly its units held for nobody |
| Confluence.CaptureConfirmsOnlyWaitingOrders | payments/pipeline.py:34-38 | a fresh capture moves the shop if and only if its order still awaits payment, and is recorded either way |
| Confluence.FailureReleasesOnlyWaitingOrders | payments/pipeline.py:49-64 | a fresh failure releases the order's units and fails it if it still awaits payment, and leaves the shop alone otherwise |
| Confluence.RefundMovesItsOrder | payments/pipeline.py:67-76 | a processed refund makes order and payment refunded exactly when the refunds reach what was paid, partly refunded otherwise, and moves no stock |
| Confluence.KeysCompleteOnce | payments/services.py:130-151 | over any run no dedupe key completes dispatch twice if and only if no delivery completes on a reading of its key that another had outdated |
| Confluence.KeysAreRecorded | payments/services.py:141-151 | the dedupe table says exactly which keys have completed |
| RefundAccounting.AccountedStep | payments/services.py:300-342 | every payment's refunded amount is the sum of its processed refunds, and its refund status what that sum dictates, after a step if and only if the step saves no stale total, adds no refund to a copy that misses or already counts one, and reports no failure of a processed refund |
| RefundAccounting.OverlappingDeliveriesSettleOnce | payments/services.py:187-196 | two deliveries that loaded one pending refund with its payment leave the totals one of them leaves |
| RefundAccounting.EveryRunAccounted | payments/services.py:262-342 | over every run without such steps, with any duplicates and any overlap of pending refunds, the totals are true |
| RefundAccounting.BoundedStep | payments/services.py:262-298 | over steps that keep the totals true, processed and pending refunds fit the payment after a step if and only if it starts none that does not fit beside those pending and revives no failed one that no longer fits |
| RefundAccounting.OneAtATimeIsSafe | payments/services.py:271-273 | a refund started on a fresh copy with none pending always fits |
| RefundAccounting.EveryFittingRunBounded | payments/services.py:271-273 | if its refunds also fit when started or revived, no payment ever refunds more than was paid |
| RefundAccounting.OrderlyRunsStayTrueAndFit | payments/services.py:262-342 | callers whose copies are current, one final outcome a refund and none pending when the next starts make every run such a run |
| RefundAccounting.PendingRefundsAreNotCounted | payments/services.py:271-273 | what is left of any refundable payment can be refunded twice on fresh copies, whatever is pending; when both settle it has paid back more than was paid |
| Returns.WithinStep | returns/services.py:30-42 | quantities claimed of each item stay within what was bought after a step if and only if the step neither claims more over its lines than is left by then nor wakes a closed request that no longer fits |
| Returns.ClaimStep | returns/services.py:62-138 | how much any step adds to the claims on an item, its guard judged on what the caller holds |
| Returns.NamingItemsOnceIsEnough | returns/services.py:62-98 | a request naming each item once, on quantities still true, never overasks |
| Returns.TwoLinesSlipPast | returns/services.py:80-88 | naming what is left of an item twice is accepted, on quantities that are true |
| Returns.RacingRequestsSlipPast | returns/services.py:80-98 | two requests that read the same quantities, each naming an item once, are both accepted and break the bound, from any office with something left |
| Returns.FreshStepsNeverWake | returns/services.py:101-138 | a closed request counts again only through a caller whose copy is out of date or the outcome of a refund |
| Returns.ShelvedStep | returns/services.py:128-178 | returned units in the ledger are the restocked lines, shelf by shelf, for each request and in all, after a step if and only if it does not receive again a request already restocked from |
| Returns.KeptStep | returns/services.py:115-138 | requests that were restocked from keep counting after a step if and only if it does not reject or withdraw one of them |
| Returns.LedgerReturnsAtMostBought | returns/services.py:128-178 | then the ledger's returns to a shelf are at most what was bought of the items of that shelf |
| Returns.ClaimsNeverExceedPurchases | returns/services.py:30-42 | over every run whose requests fit when made and when woken, claims stay within purchases |
| Returns.ReturnsAreWrittenOnce | inventory/services.py:231-268 | over every run that restocks from no request twice and closes none afterwards, returned rows are written once |
| Returns.ReturnsNeverExceedPurchases | returns/services.py:30-42 | over every run that is both, with any other stock movement between, restocked units are within claims, claims within purchases, and the ledger's returns to every shelf within what was bought for it |
| Returns.OrderlyRunsAreModestAndTidy | returns/services.py:62-255 | callers whose rows are current, who name each item once and link refunds to received requests only, make every run such a run |
| Returns.InstantOutcomeIsOverwritten | returns/services.py:207-229 | an outcome settled on the spot leaves the request at refund initiated, where its duplicates and a new refund change nothing |
| Returns.LaterOutcomeCounts | returns/services.py:240-255 | the same outcome arriving later refunds the request or returns it to received |
| ReturnMoves.EveryMoveHasItsCause | returns/services.py:101-255 | over every step and request: it newly stands in a status if and only if the one kind of step that leads there gets past its guard, spelled out for each of the seven statuses |
| ReturnMoves.EveryRunVouched | returns/services.py:207-255 | over every run, a request that says refunded has a linked refund that stands processed, and one that says refund initiated has a linked refund |
| ReturnMoves.RequestsAreOnlyAdded | returns/services.py:62-98 | a new request belongs to a delivered order in its window, names its own items, carries the quantities asked for and waits for review |
| ReturnMoves.WhatARequestClaims | returns/services.py:30-37 | rejected and withdrawn requests claim nothing, all others what their lines ask for |
| ReturnMoves.ReturnsGoWhereSalesComeFrom | returns/services.py:147-156 | returned units go to the counter a sale of the same product and variant takes from, or nowhere once the product is gone |
| ReturnMoves.ReceiveCounters | returns/services.py:128-178 | a receipt raises each counter on hand by exactly the units restocked to it, and touches no hold |
| ReturnService.ReturnService.RemainingReturnable | returns/services.py:40-42 | reads what is left of each item to be named |
| ReturnService.ReturnService.RequestReturn | returns/services.py:62-98 | accepts if and only if delivered, in its window, not empty and every line alone is of this order and fits what was read to be left; then adds one request with those lines |
| ReturnService.ReturnService.ReviewReturn | returns/services.py:101-125 | leaves the request approved, rejected or cancelled by the verdict if and only if the caller's copy says requested, whatever the row says |
| ReturnService.ReturnService.MarkReturnReceived | returns/services.py:128-178 | by the caller's copy, leaves the request received, with exactly the lines judged so and whose product still exists put back on their counters |
| ReturnService.ReturnService.InitiateReturnRefund | returns/services.py:207-229 | starts a refund by the caller's copy, and overwrites what it did to the request |
| ReturnService.ReturnService.LinkToRefund | payments/admin.py:187-230 | the payment page links a refund to any request and lets its outcome move it |
| ReturnService.ReturnService.RefundSettled | returns/services.py:240-255 | an outcome judged on a loaded refund moves the request whatever its status |
| Purchasing.BalancedStep | inventory/services.py:344-374 | units the ledger ties to each purchase order equal what its lines say was received, shelf by shelf, after a step if and only if the step is not a receipt on a stale line |
| Purchasing.EveryRunBalanced | inventory/services.py:344-374 | over every run of current receipts, any other stock movement between, they are equal and no more than was ordered |
| Purchasing.EveryRunWithin | inventory/services.py:351-354 | no line is ever received beyond what it ordered, stale copies included |
| Purchasing.ReceiptIsTold | inventory/models.py:163-170 | a receipt leaves the order received if and only if all its lines are complete |
| Purchasing.ToldStep | inventory/services.py:333-341 | statuses keep telling what was received if and only if no stale copy marks a begun order as ordered |
| Purchasing.DraftAsks | inventory/services.py:386-397 | a low-stock draft asks each low product of the supplier for its suggested quantity, and no other product |
| Purchasing.DraftTopsUp | inventory/services.py:386-397 | a draft asks each active product of the supplier at or below its threshold for what brings it to twice the threshold, one at the least, and other products for nothing |
| Purchasing.ReorderIsEnough | inventory/services.py:377-405 | fully receiving a draft, in any receipts, puts a drafted product above its threshold if and only if its holds exceeded the units on hand by less than the threshold (or by less than one); holds covered by stock always do |
| Purchasing.ReceiptsGoWhereSalesComeFrom | inventory/services.py:355-363 | received units go to the counter a sale of the same product and variant takes from |
| PurchaseDesk.PurchaseDesk.CreatePurchaseOrder | inventory/services.py:305-330 | refuses an order without lines, else opens a draft with nothing received |
| PurchaseDesk.PurchaseDesk.MarkPurchaseOrderOrdered | inventory/services.py:333-341 | goes by the caller's copy of the status |
| PurchaseDesk.PurchaseDesk.ReceivePurchaseOrderLine | inventory/services.py:344-374 | refuses what the copy of the line does not leave open, whatever the status; else adds the units to the one counter, stores the count by the copy and leaves the order received or partly received by all its lines |
| PurchaseDesk.PurchaseDesk.CreatePurchaseOrderFromLowStock | inventory/services.py:377-405 | refuses if and only if no active product of the supplier is at or below its threshold; else drafts the quantities that top them up |
| Rounding.RoundsToNearest | cart/models.py:55 | quantizing gives the one nearest integer, the even of two: roundTiesToEven, section 4.3.1 of IEEE 754-2008 |
| Rounding.CloseStaysClose | cart/models.py:166 | amounts less than one paisa apart round at most one apart, and the bound is strict |
| Rounding.HalvesOf | fulfillment/services.py:62 | rounding half an amount and doubling it misses an odd amount by one paisa, which way by its remainder by four |
| Tax.TaxIsInTheLine | cart/models.py:373-387 | a line's tax is between zero and its total and within half a paisa of the exact tax |
| Tax.TaxByTheRate | cart/models.py:368-387 | a line's tax by price, quantity and rate alone: the nearest paisa to rate over a hundred plus rate of the price, the even of two |
| Tax.ExactTaxIsTheRateOnTheNet | cart/models.py:373-382 | the back-calculated tax is the rate applied to the net amount, and the rate over a hundred plus the rate of the price |
| Tax.TaxingTheNetAgain | cart/models.py:385-387 | taxing the rounded net value gives the rounded tax back within half a paisa and the rate on it |
| Tax.InvoiceAddsUp | fulfillment/services.py:50-63 | taxable amount and tax add up to price times quantity over the lines; the tax is within half a paisa a line of exact; it is IGST alone exactly when the shop has a state and the buyer's is another, and otherwise two halves that miss it by one paisa exactly when it is odd |
| Tax.InvoiceIgnoresTheDiscount | fulfillment/services.py:65-76 | an invoice's parts add up to its total if and only if there was no discount |
| Discounts.BestOfTwo | cart/views.py:149-165 | the stored discount is the larger of coupon and promotion, what the preview showed, and the payable total is within the subtotal for any coupon row; the coupon is redeemed only if it won |
| Discounts.AutoPromoIsFair | cart/models.py:45-55 | from two items on, a tenth of the subtotal to the nearest paisa, from Rs 500 on a flat Rs 50; never more than the subtotal |
| Discounts.CouponIsWorth | cart/models.py:159-166 | the discount of every coupon: its percentage of the subtotal to the nearest paisa, the even of two, or its flat amount, within cap and subtotal |
| Discounts.CouponGrowsSlowly | cart/models.py:159-166 | one paisa more of subtotal raises a coupon's discount by at most one |
| Discounts.DearerCartsCostMore | cart/views.py:149-165 | for one coupon and one promotion standing, the payable total never falls as the subtotal grows, rounding included |
| Discounts.RedeemedWhenItWins | cart/models.py:168-183 | a checkout adds one redemption of its discount exactly when the coupon is active, in its dates, above its minimum, within both limits and beats the promotion |
| Discounts.WhyRefused | cart/models.py:168-183 | which of the six reasons a coupon is refused for, each if and only if it is the first that holds |
| Discounts.LimitsHold | cart/models.py:168-183 | over any sequence of checkouts a coupon is redeemed within its total and per-buyer limits |
| Profitability.ItemsBearTheBill | catalog/profitability.py:94-109 | gateway, shipping and refund costs spread over items sum to those costs over orders, when each subtotal is the positive sum of its lines |
| Profitability.WhatIsBilled | catalog/profitability.py:62-68 | over orders, fees are the percentage of the discounted totals, shipping the flat charge each, and refunds what was refunded |
| Profitability.GroupByProduct | catalog/profitability.py:70-109 | one row for every product sold and no other, each the sum of its own items, and every cost summed over rows is that cost summed over items |
| Profitability.RoundingShiftsLittle | catalog/profitability.py:111-124 | rounding moves a column's total by at most half a paisa a row |
| Profitability.RowOf | catalog/profitability.py:111-124 | every printed column by name: units, revenue, cost of goods at the product's cost price, gross margin, margin to the nearest tenth of a percent, each cost and the net within half a paisa |
| Profitability.PrintedRowAddsUp | catalog/profitability.py:113-124 | the printed net is within two paise of its printed columns |
| Profitability.SortByNet | catalog/profitability.py:126 | descending by net, the same rows, equal nets in their old order |
| Profitability.ProductProfitabilityReport | catalog/profitability.py:49-127 | the printed report: sorted rows of the grouping, every column as its items say, and every cost column within half a paisa a row of that cost over orders |
| Numerals.PaddedReadsBack | fulfillment/services.py:36 | padded printing can be read back, for numbers wider than the padding too |
| Numerals.PaddedWidth | fulfillment/services.py:36 | padded numbers are at least as wide as asked for, and have no leading zero beyond that |
| Invoices.InvoiceNumbersReadBack | fulfillment/services.py:20-36 | the printed number determines the financial year and the serial |
| Invoices.InvoiceNumberShape | fulfillment/services.py:20-36 | the printed number is prefix, starting year, last two digits of the next and a serial of six digits or more |
| Invoices.PurchaseNumbersReadBack | inventory/models.py:149-157 | the printed purchase-order number determines the serial |
| Invoices.YearRunsFromApril | fulfillment/services.py:20-24 | a month is in a financial year exactly when it is one of the twelve from its April on |
| Invoices.StepKeeps | fulfillment/services.py:39-48 | numbers lie within their series, no two orders share one, and issued invoices never change |
| Invoices.GaplessStep | fulfillment/services.py:27-36 | the series stay gapless after a call if and only if the call is not cut between number and row, and no other has written the order's invoice since it found none |
| Invoices.LostIsLost | fulfillment/services.py:27-36 | a number lost that way is never issued later |
| Invoices.EveryRunNumbersOnce | fulfillment/services.py:39-48 | over any run no two orders print the same invoice number |
| Invoices.CompletedRunsAreGapless | fulfillment/services.py:27-48 | over calls that all complete a year's numbers are exactly one to its last |
| Invoices.InvoicesStay | fulfillment/services.py:46-48 | every later call for an order returns the invoice it has |
| Invoices.InvoiceDesk.NextInvoiceNumber | fulfillment/services.py:27-36 | counts the year's series up by one, starting it if need be |
| Invoices.InvoiceDesk.GenerateInvoice | fulfillment/services.py:39-79 | returns the invoice its caller found, else issues one with the year's next number, the amounts of the order's lines and IGST or two halves by the two states; fails, its number spent, if the order has an invoice by then |
| Slugs.UniqueSlugify | catalog/models.py:23-40 | stops for every finite set of taken slugs, with the first free candidate, after at most as many rejections as the set has members |
| Slugs.CandidatesDiffer | catalog/models.py:36-39 | no candidate is tried twice |

## Left out

- Concurrency inside coupon-limit checks: each checkout is one step.
- PaymentService.PaymentService.InitiateRefund: creating the refund row and settling it on the spot are one step, with the gateway's answer an argument.
- PaymentService.PaymentService.StartAttempt: looking for a live attempt and creating one are one step, with the gateway's order id an argument.
- Payments.Find: a plain lookup, since no transaction is visible around the row lock in `_find_payment`.
- Profitability.ProductProfitabilityReport: divisions are exact reals, not rounded to the 28 digits of Python's decimal context; the gateway fee is a real and each order's processed refunds come summed.
- Tax.InvoiceAddsUp: the same exact reals before the one rounding of each line.
- Discounts.BestOfTwo: the same; the checkout's form and address handling around it is not modelled.
- Store.Store.PaymentRetry: its reservation and its status save are taken as one step; in the code they are two.
- Profitability.SortByNet: the library's stable sort, modelled as an insertion.
- Field widths: unbounded integers stand for the database's integer, decimal and character columns, so overflow and over-long slugs or invoice numbers are not modelled.
- Deleting products or variants after an order, and direct edits of counters or purchase-order lines in the admin pages.
- The product column of ledger rows for variants, notes, actors and reasons of audit rows.
- Return shipments and their tracking, refund amounts suggested for returns, and the buyer's pages.
- Webhook signatures, parsing and the gateway and carrier clients: their answers are arguments.
- Emails, PDFs, packing slips, addresses, pincodes, wishlists, search, images, homepage builder, settings and migrations.
- Invoices.InvoiceDesk.GenerateInvoice: a call cut between its two transactions is a step of the runs above, not a path of the method; states come trimmed and lower-cased.
- Random order numbers: uniqueness there is the database's constraint.
