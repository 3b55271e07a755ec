# Campus backend: a verified model of its transactional core

This project models, in Dafny, the parts of the campus backend whose correctness is written down in no
single place, and proves what they are for:

- the **marketplace escrow**: items, orders, payments, refunds, disputes and settlements, nineteen
  transactions whose guards interlock (`Market*.dfy`, `Commission.dfy`), and the settlement workers
  that run beside them (`SettlementWorkers.dfy`);
- the **reservation allocator**: slots with a cached counter, per-user limits, closures, and slot
  generation from weekly rules (`Reservation*.dfy`, `SlotGeneration.dfy`);
- the **moderation capability cache** against the punishments table (`Moderation*.dfy`);
- the **course merge** (`Academic*.dfy`);
- the **CI impact selector** against a declarative specification (`CiImpact*.dfy`, `CiDiff.dfy`);
- the **agent-chat concurrency guards** under arbitrary interleaving (`AgentGuards.dfy`, `TurnSlots.dfy`).

`Support.dfy` holds shared vocabulary. `dafny verify dfyconfig.toml` checks everything.

## How it is built

For the marketplace and the reservations, `Market` and `Reservation` give each transaction as a
function on the tables. `MarketInvariant`, `ReservationInvariant` and `SlotGeneration` prove that every
transaction keeps an inductive invariant; the other modules draw consequences over all runs.

`MarketReference` and `ReservationReference` then tell the same transactions a second time, by what they
promise: who may do what, which row changes to what, which error is given first, with limits and clashes
in terms of days and shared moments. The transactions are proved to do exactly that. From there
`MarketCauses` says, for every status of an order, which transactions lead to it, exactly, and over whole
runs where an order's terms came from and who released its money.

The imperative side has two layers, as in the source. The repository classes hold the tables as fields
and run the statements of each transaction one by one; every method is proved to leave exactly the
tables and the answer of the transaction of the same name (the short ones are not listed below: the
`...Keeps` rows and the service rows are about them). The service classes `MarketService.Service`,
`ReservationService.Service` and `ModerationService.Service` hold the invariant: every call requires and
ensures it, and promises what a caller may conclude from it. `AcademicRepository.Repository` does both.
Concurrent parts (settlement workers, Redis guards, the compare-and-swap loop) are state machines whose
steps are single database, gateway, Redis or atomic operations.

Six properties one might expect turn out false of the code; each has a run that shows it and the exact
condition under which it holds:

- a refunded order need not have a succeeded refund record: a dispute refund is recorded exactly when
  the order had no refund row before (`RefundedWithoutRecord`, `DisputeRefundRecordedIff`);
- when the closure check and the slot insert are not one step, a closure committed in between can lose:
  closures win exactly when no slot that passed the check and is still missing is covered by then
  (`StaleCheckLosesClosure`, `SplitGenerationSafeIff`);
- merging courses need not keep a user's counting review: it does exactly when the later-updated one
  counts, and a second merge of a course shown again can hide the last one
  (`MergingAgainHidesReview`, `CountsAfterMergeIff`);
- an idle websocket session need not admit a turn: it does exactly when the limit's low 32 bits, read as
  a signed number, are positive (`WrappedLimitAdmitsNothing`, `IdleSessionAdmitsIff`);
- counted by creation time, a user's bookings of a day can exceed the limit of an earlier booking's
  venue, as two bookings with the same time do (`TieBreaksLimit`): a booking keeps that limit exactly when
  every booking of the user and day stamped no earlier still has room, and a run keeps it exactly when
  every booking in it does (`BookingTimedIff`, `RunTimedIff`). Counted in commit order the limit holds
  without exception (`DailyLimitHolds`);
- when the cache fill's table read and cache write are not one step, the cache can serve a wrong answer,
  after a decision in between or after mere delay: it stays right exactly when at the write the answer is
  still the table's and none of it runs out within the life computed at the read (`DecisionInBetween`,
  `DelayInBetween`, `SplitFillSafeIff`).

## Assumptions

- A database transaction is one atomic step and does not fail half-way. A clash of primary or unique
  keys is an abort, so ids need not be assumed fresh. An insert with "on conflict do nothing" on
  `order_id` skips on that column only.
- Reading the order's price and inserting the payment are one step in the runs; `RowsOverRuns`
  shows the price cannot change in between. `UpdateItem` writes an arbitrary status, which covers the
  service's separate read and write.
- `updated_at` columns that no guard reads are dropped, as are titles, names and texts.
- Times are integers (milliseconds). Days have a fixed length in one zone. The moderation clock does not
  go back; the marketplace and reservation theorems need no such assumption. Bookings carry both their
  creation time and their place in commit order (`serial`).
- In reservations, the listing of a day's rules comes in any order. Looking at a day is one step, but for
  the two members that take it apart.
- A cache entry lives while now is before its expiry; the cache answers every call. Each moderation
  operation, with its cache write or invalidation, is one step, except in `ModerationRace`. The conversion of minutes to a duration
  may yield anything, so overflow there is covered.
- Generation ids, gateway answers, path functions of the Go library, and the order of unordered queries
  are parameters or arbitrary choices.
- The selector's theorems hold for any classification of files; `CiImpact.RepoFiles` is this
  repository's.
- Redis answers and no guard key expires while it counts something; the configured limits are not
  negative. A release function is called once.

## Model

| member | source | states |
|---|---|---|
| `MarketLedger.BooksAlwaysBalance` | internal/marketplace/repository_order.go:129-171 | in every state of every run, succeeded payments add up to the prices of held and of refunded orders plus all settlement amounts plus the platform fees of completed orders |
| `MarketLedger.MoneyConserved` | internal/marketplace/repository_order.go:225-244 | the same balance in any state that satisfies the invariant |
| `MarketLedger.PaidInByOrder` | internal/marketplace/repository_order.go:129-171 | succeeded payments match the orders past payment one to one, at the order's price |
| `MarketLedger.SettledByOrder` | internal/marketplace/repository_order.go:225-244 | settlements match completed orders one to one, at the seller's net |
| `Commission.FeeIsFloor` | internal/marketplace/repository_order.go:246-249 | for every non-negative int64 price and rate 0..10000 the split formula is floor(price*rate/10000), lies in [0, price], and no intermediate leaves int64 |
| `Commission.PlainProductOverflows` | internal/marketplace/repository_order.go:246-249 | a price for which the plain product leaves int64 and the split formula does not |
| `MarketRuns.ReachableOrderTerms` | internal/marketplace/repository_order.go:32-36 | in every reachable order fee plus net is the price, the fee is the floor of the price at the order's rate, and a payment is earlier than the expiry |
| `MarketInvariant.EveryRunIsSafe` | internal/marketplace/repository_order.go:12-244 | every state of every run from the empty database satisfies the invariant (terms, custody, escrow, refunds, disputes, settlements) |
| `MarketInvariant.ApplyKeeps` | internal/marketplace/repository_resolution.go:13-178 | each of the nineteen transactions, with any arguments, keeps the invariant |
| `MarketInvariant.CreateItemKeeps` | internal/marketplace/repository.go:66-72 | keeps the invariant: listing an item |
| `MarketInvariant.UpdateItemKeeps` | internal/marketplace/repository.go:114-124 | keeps the invariant: editing an item, whatever (possibly stale) status is written back |
| `MarketInvariant.WithdrawItemKeeps` | internal/marketplace/repository.go:126-133 | keeps the invariant: withdrawing an item |
| `MarketInvariant.HideItemKeeps` | internal/marketplace/repository.go:135-158 | keeps the invariant: hiding an item, which cancels a waiting order and detaches a paid one |
| `MarketInvariant.CreateOrderKeeps` | internal/marketplace/repository_order.go:12-46 | keeps the invariant: reserving an item for a new order |
| `MarketInvariant.StartPaymentKeeps` | internal/marketplace/service_order.go:60-96 | keeps the invariant: asking for a payment of the order's price |
| `MarketInvariant.AttachTransactionKeeps` | internal/marketplace/repository_order.go:114-127 | keeps the invariant: attaching the gateway's transaction id |
| `MarketInvariant.PaymentCallbackKeeps` | internal/marketplace/repository_order.go:129-171 | keeps the invariant: the payment callback, the one place where money arrives |
| `MarketInvariant.CancelOrderKeeps` | internal/marketplace/repository_order.go:173-183 | keeps the invariant: cancelling by the buyer |
| `MarketInvariant.ExpireOrderKeeps` | internal/marketplace/repository_jobs.go:22-53 | keeps the invariant: expiring an unpaid order |
| `MarketInvariant.MarkDeliveredKeeps` | internal/marketplace/repository_order.go:185-192 | keeps the invariant: delivery |
| `MarketInvariant.CompleteOrderKeeps` | internal/marketplace/repository_order.go:225-244 | keeps the invariant: completion |
| `MarketInvariant.CreateRefundKeeps` | internal/marketplace/repository_resolution.go:13-35 | keeps the invariant: requesting a refund |
| `MarketInvariant.DecideRefundKeeps` | internal/marketplace/repository_resolution.go:50-86 | keeps the invariant: deciding a refund, although its order update is unchecked |
| `MarketInvariant.CreateDisputeKeeps` | internal/marketplace/repository_resolution.go:88-117 | keeps the invariant: opening a dispute |
| `MarketInvariant.ResolveDisputeKeeps` | internal/marketplace/repository_resolution.go:132-178 | keeps the invariant: resolving a dispute, by resuming the order or by a refund whose insert is skipped on an existing refund row |
| `MarketInvariant.UpdateSettlementKeeps` | internal/marketplace/repository_jobs.go:108-119 | keeps the invariant: updating a settlement |
| `MarketReference.ApplyByReference` | internal/marketplace/repository_order.go:12-244 | every transaction writes to every table exactly the row that a second, table-by-table account of the system says, under that account's conditions of who may do what; both directions |
| `MarketReference.OrderExact` | internal/marketplace/repository_order.go:17-45 | an order is placed if and only if the item is on sale by somebody else, with the item's seller and price, the category's rate of the moment and fifteen minutes to pay |
| `MarketReference.ChargesOne` | internal/marketplace/repository_order.go:129-171 | a callback for a pending payment, to the cent, in time and under a fitting gateway transaction, charges that payment and pays its order, nothing else |
| `MarketReference.ChargesNone` | internal/marketplace/repository_order.go:129-171 | any other callback changes nothing |
| `MarketReference.CompletionExact` | internal/marketplace/repository_order.go:225-244 | an order completes if and only if it is delivered, has no pending refund and the settlement id is free; no other conflict is possible |
| `MarketReference.RefundRequestExact` | internal/marketplace/repository_resolution.go:13-35 | a refund is requested if and only if the buyer asks for a paid or delivered order that has none |
| `MarketReference.PayOutExact` | internal/marketplace/repository_resolution.go:50-86 | an approved refund is paid out if and only if it is pending and the gateway id is new, with order, item and record as promised |
| `MarketReference.RejectExact` | internal/marketplace/repository_resolution.go:50-68 | a refund is rejected if and only if it is pending, and nothing but the record changes |
| `MarketReference.DisputeExact` | internal/marketplace/repository_resolution.go:88-117 | a dispute is opened if and only if a party raises the first one on a paid or delivered order without a pending refund |
| `MarketReference.CompensationExact` | internal/marketplace/repository_resolution.go:132-178 | a dispute is resolved by a refund if and only if it is pending and the refund row can be written or is there |
| `MarketReference.ItemAnswers` | internal/marketplace/repository.go:66-133 | which error a listing or an edit is refused with, and when an edit or a withdrawal reports a change |
| `MarketReference.HideAnswers` | internal/marketplace/repository.go:135-158 | hiding answers with exactly the order it cancelled |
| `MarketReference.JobAnswers` | internal/marketplace/repository_jobs.go:22-93 | expiry and auto-completion report a change exactly when they make one |
| `MarketReference.PaymentAnswers` | internal/marketplace/service_order.go:67-77 | anybody but the buyer is refused first, then an empty request id |
| `MarketReference.DisputeAnswers` | internal/marketplace/repository_resolution.go:88-117 | the error that an earlier dispute exists is given exactly when nothing else stands in the way |
| `MarketCauses.BornIff` | internal/marketplace/repository_order.go:17-45 | an order row appears if and only if an order that may be placed is placed, with exactly the terms of the moment |
| `MarketCauses.CompletedIff` | internal/marketplace/repository_order.go:194-205 | over all transactions: an order is completed if and only if its buyer confirms, or the job finds the delivery as old as its cutoff, and nothing stands in the way |
| `MarketCauses.DeliveredIff` | internal/marketplace/repository_order.go:185-192 | over all transactions: delivered if and only if its seller delivers the paid order, or a dispute falls back to delivery |
| `MarketCauses.CancelledIff` | internal/marketplace/repository_order.go:173-183 | over all transactions: cancelled if and only if its buyer cancels, it expires, or its item is hidden, while it awaits payment |
| `MarketCauses.DisputedIff` | internal/marketplace/repository_resolution.go:88-117 | over all transactions: disputed if and only if a party may and does dispute it |
| `MarketCauses.RefundedIff` | internal/marketplace/repository_resolution.go:50-178 | over all transactions: refunded if and only if a pending refund is approved or a pending dispute decided for a refund |
| `MarketCauses.PaidIff` | internal/marketplace/repository_order.go:129-171 | over all transactions: paid if and only if a callback charges one of its pending payments, or a dispute falls back to paid |
| `MarketCauses.OrderOrigin` | internal/marketplace/repository_order.go:17-45 | in every run every order was placed by somebody other than the seller on an item then on sale, and still has that moment's price, seller and category rate |
| `MarketCauses.StatusEntered` | internal/marketplace/repository_order.go:207-223 | in every run an order entered its present status by one of the run's transactions |
| `MarketCauses.CompletedByBuyerOrTime` | internal/marketplace/repository_order.go:194-205 | in every run the money of a completed order was released by its buyer or by the cutoff |
| `MarketInvariant.CompletionEffect` | internal/marketplace/repository_order.go:225-244 | the settlement insert that would be skipped on conflict never meets one: completing an order always writes its settlement |
| `MarketRuns.ApplyMovesRow` | internal/marketplace/repository_order.go:173-244 | no transaction moves an order row except along eight moves, each changing the status and one time stamp only; every row starts unpaid |
| `MarketRuns.AtMostFiveChanges` | internal/marketplace/repository_resolution.go:88-178 | over every run an order makes at most five status changes |
| `MarketExample.FiveChangesHappen` | internal/marketplace/repository_resolution.go:88-178 | the bound is reached: some run changes the status of an order five times |
| `MarketRuns.RowsOverRuns` | internal/marketplace/repository_order.go:207-223 | over every run terms and payment date of an order are fixed, completed, cancelled and refunded rows are frozen, and a closed dispute is never reopened |
| `MarketRuns.OneLiveOrder` | internal/marketplace/repository_order.go:17-45 | an item has at most one order that is live or was ever paid |
| `MarketRuns.SingleSale` | internal/marketplace/repository.go:114-158 | once an order is paid, in every later state its item is neither draft nor published, and every other order for the item is cancelled and was never paid |
| `MarketResolution.RefundAndDisputeExclude` | internal/marketplace/repository_resolution.go:88-117 | a pending refund and a pending dispute never concern the same order |
| `MarketResolution.DisputedIffPendingDispute` | internal/marketplace/repository_resolution.go:88-178 | an order is disputed if and only if it has a pending dispute |
| `MarketResolution.ApprovedRefundLands` | internal/marketplace/repository_resolution.go:50-86 | an approved refund always finds its order: refunded, item withdrawn and unreserved, record succeeded at the price |
| `MarketResolution.SettlementIffCompleted` | internal/marketplace/repository_order.go:225-244 | a settlement exists if and only if the order is completed, exactly one, for the seller's net, under the order's own request id |
| `MarketResolution.CompletedHasNoRefund` | internal/marketplace/repository_order.go:225-244 | a completed order has no refund record but rejected ones |
| `MarketResolution.CompletedNeverRefunded` | internal/marketplace/repository_resolution.go:50-86 | over every run a completed order stays as it is, settled, with no pending or succeeded refund |
| `MarketResolution.SettlementRequestsDiffer` | internal/marketplace/service_order.go:219-221 | different orders have different settlement request ids |
| `MarketResolution.DisputeRefundRecordedIff` | internal/marketplace/repository_resolution.go:132-178 | a dispute refund leaves a succeeded refund record if and only if the order had no refund record before |
| `MarketExample.RefundedWithoutRecord` | internal/marketplace/repository_resolution.go:153 | a reachable state with a refunded order whose only refund record is a rejected one |
| `MarketResolution.RunKeepsRecords` | internal/marketplace/repository_order.go:114-171 | over every run payments keep order and amount, succeeded payments and closed disputes are frozen |
| `MarketResolution.DisputeFreezesOrder` | internal/marketplace/repository_resolution.go:88-178 | while a dispute is open, whatever happens, the order row and its payment do not change |
| `MarketResolution.ResumeRestores` | internal/marketplace/repository_resolution.go:132-178 | open a dispute, let anything happen, resume: the order row is the one before (but for the dispute date) and the payment the same row; an item reserved for the order is exactly as before if and only if nobody hid it meanwhile |
| `MarketResolution.DisputeFreezesItem` | internal/marketplace/repository_resolution.go:88-178 | while a dispute is open and nobody hides the item, the item reserved for the order does not change, whatever else happens |
| `MarketResolution.HiddenStaysDetached` | internal/marketplace/repository.go:135-158 | an item hidden in the course of a run never points at an existing order again |
| `MarketSweep.SweptMore` | internal/marketplace/repository_jobs.go:22-53 | expiring one more overdue order extends the sweep by exactly that order and the item still pointing at it |
| `MarketSweep.OneSweep` | internal/marketplace/service_jobs.go:11-26 | one sweep takes min(100, n) of n overdue orders away |
| `MarketSweep.SweepsDrain` | internal/marketplace/service_jobs.go:11-26 | after k sweeps at a fixed time max(0, n - 100k) overdue orders are left |
| `MarketSweep.EnoughSweeps` | internal/marketplace/service_jobs.go:11-26 | ceil(n/100) sweeps leave none |
| `SettlementWorkers.WorkersAreSafe` | internal/marketplace/service_jobs.go:63-88 | under every interleaving a worker returns success only for a succeeded record, and every gateway call is for a completed order, under its one request id, for the seller's net |
| `SettlementWorkers.StepsKeep` | internal/marketplace/repository_jobs.go:108-119 | under every interleaving succeeded is never left and the row, gateway id included, never overwritten |
| `SettlementWorkers.NextKeeps` | internal/marketplace/service_jobs.go:63-88 | every step keeps the workers' invariant, among it that a succeeded row was accepted by the gateway under the id it carries |
| `SettlementWorkers.UpdateWritesOneRow` | internal/marketplace/repository_jobs.go:108-119 | the update writes its own row at most, and only while it is not succeeded |
| `SettlementWorkers.FindAnswers` | internal/marketplace/service_jobs.go:63-70 | a worker starts on an open record only; a missing one is a failure, a succeeded one a success, without a gateway call |
| `SettlementWorkers.CallsByFinders` | internal/marketplace/service_jobs.go:71 | a gateway call is made only by a worker that found an open record, with that record's order, request id and amount |
| `SettlementWorkers.RefusalAnswers` | internal/marketplace/service_jobs.go:72-75 | after a refusal the open record is failed and the worker returns failure |
| `SettlementWorkers.AcceptanceAnswers` | internal/marketplace/service_jobs.go:76-87 | after an acceptance under a new id the open record is succeeded under that id and the worker returns success |
| `SettlementWorkers.LateAnswers` | internal/marketplace/service_jobs.go:80-86 | a record settled meanwhile is not written, and the second look returns success |
| `MarketRepository.Repository.HideItem` | internal/marketplace/repository.go:135-158 | cancels a waiting order first, then hides and detaches the item, as the transaction of the run theorems |
| `MarketRepository.Repository.CreateOrder` | internal/marketplace/repository_order.go:12-46 | guards in order, the reservation rolled back if the order insert fails; tables and answer as in the run theorems |
| `MarketRepository.Repository.CreateOrFindPayment` | internal/marketplace/repository_order.go:79-112 | a known request id must be for the same order and amount; otherwise a new pending payment |
| `MarketRepository.Repository.ApplyPaymentCallback` | internal/marketplace/repository_order.go:129-171 | checks in order, pending-only payment update, order paid; tables and answer as in the run theorems |
| `MarketRepository.Repository.CompleteOrder` | internal/marketplace/repository_order.go:225-244 | refund count, order, item, settlement insert that skips on the order id, rollback on any other clash |
| `MarketRepository.Repository.DecideRefund` | internal/marketplace/repository_resolution.go:50-86 | unchecked order update, item retired, rollback on a clash of gateway ids |
| `MarketRepository.Repository.CreateDispute` | internal/marketplace/repository_resolution.go:88-117 | refund count, insert that fails on a second dispute, order update |
| `MarketRepository.Repository.ResolveDispute` | internal/marketplace/repository_resolution.go:132-178 | both actions, the refund insert skipped on an existing row |
| `MarketRepository.Repository.ListExpiredOrderIDs` | internal/marketplace/repository_jobs.go:12-20 | the smallest ids of the overdue unpaid orders, ascending, min(limit, n) of them |
| `MarketRepository.Repository.ListAutoCompleteOrderIDs` | internal/marketplace/repository_jobs.go:55-66 | delivered orders past the cutoff without a pending refund, ascending, the min(limit, n) with the smallest ids |
| `MarketService.Service.constructor` | internal/marketplace/repository.go:23 | an empty database satisfies the invariant |
| `MarketService.Service.HideItem` | internal/marketplace/repository.go:135-158 | keeps the invariant; the item is hidden and points at no order, and every paid, delivered or disputed order goes on unchanged |
| `MarketService.Service.CreateOrder` | internal/marketplace/service_order.go:19-45 | keeps the invariant; succeeds if and only if the order may be placed, with the full row of the moment's terms and the item reserved; tells one's own item from an unavailable one |
| `MarketService.Service.StartPayment` | internal/marketplace/service_order.go:60-96 | keeps the invariant through request, gateway call and attachment; succeeds if and only if the buyer may ask and the payment has, or the gateway made, a fitting transaction; then the payment is for this order and its price and carries it; only payments change |
| `MarketService.Service.PaymentCallback` | internal/marketplace/service_order.go:98-114 | keeps the invariant; success means that the payment succeeded and its order is past payment at exactly that amount; a repeated callback changes nothing; it reports a change if and only if the payment may be charged |
| `MarketService.Service.CancelOrder` | internal/marketplace/service_order.go:116-130 | keeps the invariant; succeeds if and only if the buyer cancels an order that awaits payment, whose item is then published and unreserved |
| `MarketService.Service.ProcessSettlement` | internal/marketplace/service_jobs.go:63-88 | keeps the invariant and every other row; success exactly when the record is succeeded; an accepting gateway with a new id always leads there, under that id; a refusal leaves it failed; a succeeded record is not written |
| `MarketService.Service.ConfirmReceived` | internal/marketplace/service_order.go:148-165 | keeps the invariant; succeeds if and only if the buyer confirms a delivered order without a pending refund; then it is completed, its reserved item sold, its settlement for the seller's net written and tried once; nothing else changes; failure changes nothing |
| `MarketService.Service.DecideRefund` | internal/marketplace/service_admin.go:26-55 | keeps the invariant; a rejection succeeds if and only if the refund is pending and changes the record to rejected, nothing else; an approval succeeds if and only if it was paid out or can be, and leaves the record succeeded and the order refunded at its price; approving again changes nothing; failure changes nothing |
| `MarketService.Service.ResolveDispute` | internal/marketplace/service_admin.go:73-104 | keeps the invariant; succeeds if and only if the dispute is pending and, for a refund, the gateway paid and it can be recorded; the order is then refunded or back in its previous status; failure changes nothing |
| `MarketService.Service.MarkDelivered` | internal/marketplace/service_order.go:132-146 | keeps the invariant; succeeds if and only if the seller delivers a paid order |
| `MarketService.Service.RequestRefund` | internal/marketplace/service_order.go:167-189 | keeps the invariant; succeeds if and only if the buyer may ask; tells an order that cannot be refunded from one that has a refund |
| `MarketService.Service.CreateDispute` | internal/marketplace/service_order.go:191-213 | keeps the invariant; succeeds if and only if a party may dispute |
| `MarketService.Service.ExpireDueOrders` | internal/marketplace/service_jobs.go:11-26 | keeps the invariant; cancels exactly min(100, n) of the n overdue orders, frees exactly the items pointing at them, changes nothing else |
| `MarketService.Service.CompleteEach` | internal/marketplace/service_jobs.go:28-47 | keeps the invariant; exactly the listed orders are completed, exactly the items reserved for them sold, each new settlement tried with its own answer, nothing else changed; with new settlement ids it never fails |
| `MarketService.Service.RunDueJobs` | internal/marketplace/service_jobs.go:11-48 | keeps the invariant; one expiry sweep, then of the m orders due after forty-eight hours the min(100, m) with the smallest ids completed and the items reserved for them sold, each new settlement tried with its own answer, nothing else changed; fails only if a generated settlement id is taken, with a first part of the list done |
| `MarketService.Service.RetryPendingSettlements` | internal/marketplace/service_jobs.go:50-61 | keeps the invariant; min(100, n) of the n open settlements are tried: failed where the gateway refuses, succeeded where it accepts under new ids; nothing else changes |
| `MarketService.TimeoutCompletes` | internal/marketplace/repository_jobs.go:68-93 | an order that is due always completes unless the generated settlement id is taken: its request id cannot be |
| `MarketSweep.SweptKeeps` | internal/marketplace/service_jobs.go:11-26 | a sweep of any overdue orders keeps the invariant |
| `ReservationRuns.CounterIsExact` | internal/reservation/repository.go:140-203 | in every reachable state an open slot's counter is the number of its reserved, checked-in and no-show bookings, within capacity; a closed slot counts 0 and has no reserved booking |
| `ReservationRuns.CancelNeverUnderflows` | internal/reservation/repository.go:222-269 | the branch of a cancellation that finds nothing to decrement is unreachable: the only refusal is the deadline |
| `ReservationRuns.NoDoubleBooking` | internal/reservation/repository.go:178-200 | in every reachable state no user holds two overlapping valid bookings |
| `ReservationRuns.DailyLimitHolds` | internal/reservation/repository.go:178-200 | in every reachable state, for each valid booking the user's valid bookings of that day committed no later number at most its own venue's daily limit, across venues and cancellations |
| `ReservationRuns.ClosedForGood` | internal/reservation/repository.go:308-343 | once a closure is committed, in every later state every slot it covers is closed and counts 0, whether generated before or after |
| `ReservationRuns.RunExtends` | internal/reservation/repository.go:86-95 | over every run venues, resources and closures are unchanged and no slot is removed or moved |
| `ReservationRuns.RegenerationIsIdle` | internal/reservation/repository.go:86-95 | generate a day, let anything happen, generate it again from the same rules: nothing changes |
| `ReservationRuns.DaySlotsMember` | internal/reservation/service.go:111-127 | the slots of a day are the slots of its rules and nothing else |
| `SlotGeneration.RunKeeps` | internal/reservation/repository.go:140-343 | every run keeps the reservation invariant |
| `SlotGeneration.GenerateDayKeeps` | internal/reservation/service.go:81-130 | keeps the reservation invariant: generating a day |
| `ReservationInvariant.CreateBookingKeeps` | internal/reservation/repository.go:140-203 | keeps the reservation invariant: booking |
| `ReservationInvariant.CancelBookingKeeps` | internal/reservation/repository.go:222-269 | keeps the reservation invariant: cancelling |
| `ReservationInvariant.CheckinKeeps` | internal/reservation/repository.go:271-277 | keeps the reservation invariant: check-in |
| `ReservationInvariant.MarkNoShowsKeeps` | internal/reservation/repository.go:279-306 | keeps the reservation invariant: marking no-shows |
| `ReservationInvariant.CreateClosureKeeps` | internal/reservation/repository.go:308-343 | keeps the reservation invariant: a closure |
| `SlotGeneration.SlotCountExact` | internal/reservation/service.go:111-127 | a rule yields floor((end-start)/length) slots: they fit and one more would not |
| `SlotGeneration.RuleSlotShape` | internal/reservation/service.go:111-127 | each slot lies inside its rule and its day, has the venue's length, and starts where the one before ends |
| `SlotGeneration.OverlapSharesDay` | internal/reservation/repository.go:152-160 | overlapping slots share a calendar day, so one user-day lock covers every conflict |
| `SlotGeneration.SameRelation` | internal/reservation/repository.go:108-116 | closing slots and generating slots use the same overlap relation between closures and slots |
| `SlotGeneration.EnsureUnique` | internal/reservation/repository.go:86-95 | inserting a batch keeps (resource, start, end) unique |
| `SlotGeneration.EnsureIdle` | internal/reservation/repository.go:86-95 | inserting a batch whose keys exist changes nothing |
| `SlotGeneration.SplitGenerationSafeIff` | internal/reservation/service.go:111-130 | closure check and insert taken apart: closures still win if and only if no slot that passed the check and is missing from the table is covered by a closure committed by the time of the insert |
| `SlotGeneration.StaleCheckLosesClosure` | internal/reservation/service.go:115-128 | from a reached state with a stored rule: the day's slots are computed, a closure is committed, the slots are inserted, and an open slot lies inside the closure |
| `ReservationRepository.Repository.CreateBooking` | internal/reservation/repository.go:140-203 | guards in order, the counter rolled back if the insert fails; tables and answer as in the run theorems |
| `ReservationRepository.Repository.CancelBooking` | internal/reservation/repository.go:222-269 | deadline, status and counter branches with rollback; tables and answer as in the run theorems |
| `ReservationRepository.Repository.CreateClosure` | internal/reservation/repository.go:308-343 | closes the covered slots and cancels their reservations; tables and the set of users to tell as in the run theorems |
| `ReservationRepository.Repository.HasClosure` | internal/reservation/repository.go:108-116 | whether some closure of the resource or its venue overlaps the interval |
| `ReservationRepository.Repository.EnsureSlots` | internal/reservation/repository.go:86-95 | inserts the slots whose key is missing; a clash of ids leaves the table as it was |
| `ReservationRepository.Repository.ListRules` | internal/reservation/repository.go:77-85 | exactly the active rules stored for the resource and weekday |
| `ReservationService.Service.constructor` | internal/reservation/service.go:42-50 | an empty database satisfies the invariant |
| `ReservationService.Service.CreateClosure` | internal/reservation/service.go:246-282 | keeps the invariant; exactly the slots that share a moment with the closure and belong to its resource or venue are closed and count 0, exactly the reserved bookings on them cancelled, exactly their users told |
| `ReservationService.Service.BuildSlots` | internal/reservation/service.go:111-127 | the outer loop yields the day's slots, rule after rule |
| `ReservationService.Service.BuildRuleSlots` | internal/reservation/service.go:112-126 | the inner loop yields exactly the rule's slots, closed where a closure covers them |
| `ReservationService.Service.AvailableSlots` | internal/reservation/service.go:81-139 | keeps the invariant; in the booking window every slot of every stored rule of the day is present afterwards, existing slots are unchanged, only slots of such rules are added, and exactly the day's slots are listed in order of their start; outside the window none; failure changes nothing |
| `ReservationService.Service.CreateBooking` | internal/reservation/service.go:141-167 | keeps the invariant; succeeds if and only if the slot is bookable, the day below the limit and no booking shares a moment with it, and takes one seat; otherwise the first obstacle is the error and nothing changes |
| `ReservationService.Service.CancelBooking` | internal/reservation/service.go:180-196 | keeps the invariant; the user's own reserved booking is cancelled before the deadline and its seat freed; after it the deadline is the error, the only one; any other booking is left alone |
| `ReservationService.Service.Checkin` | internal/reservation/service.go:284-293 | keeps the invariant; exactly the reserved booking with the code, of which there is at most one, is checked in |
| `ReservationService.Service.RunDueJobs` | internal/reservation/service.go:294-306 | keeps the invariant; a booking becomes a no-show if and only if it was reserved on a slot that is over; exactly these are listed; nothing else changes |
| `ReservationReference.BookingAnswers` | internal/reservation/repository.go:140-203 | a booking succeeds if and only if nothing stands in its way, and fails with the first obstacle, limits and clashes told by days of 24 hours and shared moments |
| `ReservationReference.CancelAnswers` | internal/reservation/repository.go:222-269 | only the user's own reserved booking is cancelled, only before the venue's deadline, and its seat freed |
| `ReservationReference.CheckinAnswers` | internal/reservation/repository.go:271-277 | exactly the reserved bookings with the code are checked in |
| `ReservationReference.NoShowAnswers` | internal/reservation/repository.go:279-306 | exactly the reserved bookings on slots that are over become no-shows and are listed |
| `ReservationReference.ClosureAnswers` | internal/reservation/repository.go:308-343 | a closure is accepted if and only if it names a venue or resource and a time; exactly the covered slots and the reserved bookings on them change |
| `ReservationReference.ClosesIsCovers` | internal/reservation/repository.go:108-116 | a closure covers a slot if and only if it is for its resource or its venue and they share a moment |
| `ReservationReference.VenueAnswers` | internal/reservation/service.go:198-217 | settings that are not positive become a week, an hour, two bookings and two hours |
| `ReservationReference.ResourceAnswers` | internal/reservation/service.go:219-233 | a capacity that is not positive becomes one |
| `ReservationReference.RuleAnswers` | internal/reservation/service.go:235-244 | a rule is accepted if and only if it lies within a day |
| `ReservationReference.StoredRulesAre` | internal/reservation/repository.go:77-85 | the rules of a day are the active ones of the resource and the day's weekday |
| `ReservationReference.GeneratedSlot` | internal/reservation/service.go:111-127 | a generated slot has the resource's capacity, nobody in it, and is closed if and only if a closure covers it |
| `ReservationReference.GenerationAnswers` | internal/reservation/service.go:81-130 | generation refuses exactly a resource that does not serve, changes nothing outside the window, and adds only slots of rules that apply |
| `ReservationTiming.BookingTimedIff` | internal/reservation/repository.go:178-200 | where the limit holds counted by creation time, a booking keeps it if and only if every valid booking of the user and day stamped no earlier still has room, which can be checked before the transaction |
| `ReservationTiming.RunTimedIff` | internal/reservation/repository.go:140-203 | over every run: the limit counted by creation time holds in every state if and only if every committed booking found such room; no other transaction can break it |
| `ReservationRuns.DailyLimitByTime` | internal/reservation/repository.go:178-200 | counted by creation time, without any condition, the bookings number at most the limit of the last committed one's venue |
| `ReservationExample.TieBreaksLimit` | internal/reservation/repository.go:178-200 | a reachable state in which two bookings with equal creation times exceed the limit of the first one's venue |
| `Moderation.ServedIsCurrent` | internal/moderation/service.go:296-345 | over every run the served capability set, cached or not, is the set the punishments table gives at that moment |
| `Moderation.RunKeeps` | internal/moderation/service.go:189-351 | every run keeps: a cached entry is right now and at every later moment before it expires, if nothing is decided meanwhile |
| `Moderation.FilledEntryOk` | internal/moderation/service.go:327-338 | an entry with the minimum-over-end-times life answers like the table until it expires |
| `Moderation.OthersUntouched` | internal/moderation/service.go:347-351 | a decision about one user invalidates that user's entry and leaves every other entry right |
| `Moderation.Summarise` | internal/moderation/service.go:327-335 | the loop collects exactly the capabilities listed and the minimum of five minutes and the times left |
| `ModerationRace.SplitFillSafeIff` | internal/moderation/service.go:323-343 | the fill taken apart into read and write with anything in between: the cache stays right if and only if at the write the answer is still the table's and none of it runs out within the life computed at the read |
| `ModerationRace.DecisionInBetween` | internal/moderation/service.go:323-343 | a run in which a punishment falls between read and write, and the entry denies nothing although the account is denied |
| `ModerationRace.DelayInBetween` | internal/moderation/service.go:328-340 | a run without any decision in between: the entry is written a millisecond late and outlives the punishment it was computed from |
| `ModerationService.Service.TimePasses` | internal/moderation/service.go:315-345 | a state that is right stays right as time passes |
| `ModerationService.Service.ActivePunishments` | internal/moderation/repository.go:150-161 | exactly the user's punishments in force |
| `ModerationService.Service.ActiveCapabilities` | internal/moderation/service.go:315-345 | keeps the invariant; answers the set the table gives at this moment, cached or not, and leaves it cached, for five minutes or until the first of its punishments ends |
| `ModerationService.Service.Check` | internal/moderation/service.go:296-308 | refuses if and only if a punishment in force denies the capability or the account |
| `ModerationService.Service.Invalidate` | internal/moderation/service.go:347-351 | drops that user's entry and no other |
| `ModerationService.Service.CompleteReview` | internal/moderation/repository.go:101-128 | status and punishment are written together, for the reviewing administrator's report only, or nothing is |
| `ModerationService.Service.ClaimReport` | internal/moderation/repository.go:88-99 | keeps the invariant; exactly a pending report is claimed, for that administrator |
| `ModerationService.Service.SettleReport` | internal/moderation/service.go:189-243 | keeps the invariant; the reviewing administrator's report is rejected or acted upon, without a punishment |
| `ModerationService.Service.PunishTarget` | internal/moderation/service.go:189-243 | keeps the invariant; the new punishment is the target's, with its capability and end, and counts from this moment |
| `ModerationService.Service.RevokePunishment` | internal/moderation/service.go:245-261 | keeps the invariant; the punishment is no longer in force |
| `ModerationService.Service.CreateAppeal` | internal/moderation/service.go:124-149 | keeps the invariant; one appeal per punishment, by the punished user only |
| `ModerationService.Service.DecideAppeal` | internal/moderation/service.go:272-294 | keeps the invariant; approval lifts the punishment and drops the punished user's entry, rejection touches neither |
| `Academic.TargetAfterMerge` | internal/academic/repository.go:251-271 | after a merge the target has exactly one review for each user who had one on either course, with the fields and status of the later-updated one (ties to the target) |
| `Academic.SourceAfterMerge` | internal/academic/repository.go:251-271 | the source keeps only merged-status reviews, otherwise unchanged, each superseded on the target |
| `Academic.MergeKeepsUnique` | internal/academic/repository.go:234-277 | merging keeps one review per course and user |
| `Academic.MergeKeepsRows` | internal/academic/repository.go:234-277 | merging keeps the row count, ids, users and creation times, and every row of other courses |
| `Academic.MovedMaterials` | internal/academic/repository.go:272-274 | every material of the source moves to the target with its user, title and status, no other changes |
| `Academic.CountsAfterMergeIff` | internal/academic/repository.go:263-270 | after a merge a user's review counts on the target if and only if the deciding review was normal |
| `Academic.MergingAgainHidesReview` | internal/academic/repository.go:263-276 | a run in which a course merged, shown again and merged again takes a user's only counting review away |
| `Academic.RunKeeps` | internal/academic/repository.go:117-277 | over every run one review per course and user; none is lost, changes hands or is redated |
| `Academic.SaveWrites` | internal/academic/repository.go:117-138 | a save writes exactly one row, the user's review of the course, visible and stamped with the time of the save, keeping the creation time of an existing one |
| `Academic.SavedLaterWins` | internal/academic/repository.go:117-138 | a review saved later than the user's review of the other course decides a merge of the two |
| `Academic.SaveThenMerge` | internal/academic/repository.go:117-271 | save, then merge: what the user wrote last is what the target shows |
| `Academic.MergeTouches` | internal/academic/repository.go:272-276 | the source course is merged into the target, no other course changes, and exactly the touched rows are stamped |
| `Academic.StatusOps` | internal/academic/repository.go:140-148 | deleting, hiding and showing change the one review they are about |
| `AcademicRepository.Repository.SaveReview` | internal/academic/repository.go:117-138 | writes exactly the one row a save promises; fails only for a first review, on a clash of ids or a missing course, and then changes nothing |
| `AcademicRepository.Repository.MergeCourses` | internal/academic/repository.go:234-277 | succeeds if and only if the courses differ and both are normal; leaves exactly the merged tables, else no change |
| `AcademicRepository.Repository.MergeReviews` | internal/academic/repository.go:251-271 | the loop, in any order of the source's reviews, leaves exactly the merged reviews |
| `AcademicRepository.Repository.MergeOne` | internal/academic/repository.go:251-271 | one turn of the loop moves, overwrites or marks exactly the rows of one user |
| `CiImpactEvaluate.Evaluate` | internal/ciimpact/evaluate.go:34-102 | full if and only if some change triggers a fallback, with the first reason; otherwise the matrices, the protocol check and the sorted file list are exactly those of the specification |
| `CiImpactEvaluate.InMatrixIff` | internal/ciimpact/evaluate.go:54-91 | a service is in the test (build) matrix if and only if the run is full or a non-ignorable (non-test) file maps into its closure, or it is agentchat and an agent proto changed |
| `CiImpactEvaluate.BuiltIsTested` | internal/ciimpact/evaluate.go:74-87 | the build matrix is contained in the test matrix |
| `CiImpactEvaluate.MoreChangesMoreWork` | internal/ciimpact/evaluate.go:34-102 | more changes never test, build or list less, nor drop the protocol check where cleaning a path twice is cleaning it once |
| `CiImpactEvaluate.OrderDoesNotMatter` | internal/ciimpact/evaluate.go:34-102 | order and repetition of the changes decide nothing but the reason text |
| `CiImpactEvaluate.IgnorableSelectsNothing` | internal/ciimpact/evaluate.go:36-58 | ignorable changes alone select nothing |
| `CiImpactEvaluate.TestFilesBuildNothing` | internal/ciimpact/evaluate.go:74-82 | test files alone, unless they force a full run, build nothing |
| `CiImpactEvaluate.DocsSelectNothing` | internal/ciimpact/evaluate.go:147-162 | under the repository's own classification a change of documentation alone selects nothing |
| `CiImpactEvaluate.SharedFileSelectsAll` | internal/ciimpact/evaluate.go:10-13 | under the repository's own classification a shared build file selects every service for both |
| `CiImpactEvaluate.RepoBuildIff` | internal/ciimpact/evaluate.go:54-87 | under the repository's own classification, written out: unless the run is full, a service is built if and only if a changed file that is neither ignorable nor ends in _test.go lies in its runtime closure, or it is agentchat and a file under proto/agent/ changed |
| `CiImpactEvaluate.RepoTestIff` | internal/ciimpact/evaluate.go:54-87 | the same for tests, with the test closure and test files |
| `CiImpactEvaluate.OtherStatusSelectsAll` | internal/ciimpact/evaluate.go:36-49 | a change that matters with any status but A, M and T selects everything |
| `CiImpactEvaluate.UnmappedSelectsAll` | internal/ciimpact/evaluate.go:69-90 | a file outside every package or closure selects everything |
| `CiImpactEvaluate.ListsBothPaths` | internal/ciimpact/evaluate.go:111-127 | exactly the cleaned old and new paths are listed |
| `CiImpactEvaluate.IgnoredDirectories` | internal/ciimpact/evaluate.go:147-162 | the directories and files that are ignorable |
| `CiImpactEvaluate.SharedFiles` | internal/ciimpact/evaluate.go:10-13 | the directories and files that concern every service |
| `CiImpactEvaluate.SourceFileBuilds` | internal/ciimpact/evaluate.go:73-82 | a source file of the chat service changed alone builds exactly the services whose runtime closure holds its package |
| `CiImpactEvaluate.CleanIgnoresSpelling` | internal/ciimpact/evaluate.go:141-145 | backslashes and a leading ./ make no difference to a path |
| `CiImpactEvaluate.FullResult` | internal/ciimpact/evaluate.go:15-32 | every service in both matrices; protocol check exactly when a listed file, cleaned again, is an agent proto |
| `CiImpactEvaluate.CheckStatuses` | internal/ciimpact/evaluate.go:36-49 | none exactly when no change that matters has a status that cannot be mapped, else the reason of the first such change |
| `CiImpactEvaluate.MapFile` | internal/ciimpact/evaluate.go:55-90 | one file: a fallback with its reason, or exactly the services it puts into the test and build matrices |
| `CiImpactEvaluate.MapFiles` | internal/ciimpact/evaluate.go:51-91 | the reason of the first file that forces a full run, or exactly the selected names |
| `CiImpactEvaluate.MatchServices` | internal/ciimpact/evaluate.go:73-87 | the services whose runtime or test closure holds the package |
| `CiImpactEvaluate.ChangedPaths` | internal/ciimpact/evaluate.go:111-127 | the cleaned old and new paths, without repetition, strictly sorted |
| `CiImpactEvaluate.SelectedServices` | internal/ciimpact/evaluate.go:129-137 | the selected services in manifest order |
| `CiImpact.SelectedAre` | internal/ciimpact/evaluate.go:129-137 | a service is selected if and only if it is in the manifest and its name is selected |
| `CiImpact.SortedOnce` | internal/ciimpact/evaluate.go:121-126 | two sorted lists of the same files are the same list |
| `CiDiff.ParseNameStatus` | internal/ciimpact/diff.go:10-37 | one change per line that is not blank, in order, or the first malformed line |
| `CiDiff.ChangeOf` | internal/ciimpact/diff.go:22-31 | only renames and copies carry an old path |
| `CiDiff.DiffRoundTrip` | internal/ciimpact/diff.go:10-37 | a diff written out and read back is the same diff |
| `CiDiff.NoRenameSlipsBy` | internal/ciimpact/evaluate.go:104-109 | in a parsed diff that does not force a full run, every change with an old path touches ignorable files only, and every other change that matters has status A, M or T |
| `AgentGuards.CountersAreExact` | internal/agentchat/service_limits.go:74-91 | under every interleaving each counter is its holders plus the refused attempts not yet undone, and holders never exceed the limit |
| `AgentGuards.RunningIsBounded` | internal/agentchat/service_limits.go:19-51 | never more running turns than the user's and the conversation's limit |
| `AgentGuards.NothingLeaks` | internal/agentchat/service_limits.go:35-50 | with no turn under way every user and conversation counter is back at zero, after any mixture of grants, refusals and partial acquisitions |
| `AgentGuards.RefusedIff` | internal/agentchat/service_limits.go:79-90 | an attempt is refused if and only if holders and pending undos fill the limit |
| `AgentGuards.KeyNamesDiffer` | internal/agentchat/service_limits.go:93-103 | different counters have different Redis keys |
| `TurnSlots.InflightIsExact` | internal/agentchat/ws.go:131-156 | under every interleaving of the compare-and-swap loop inflight is the number of running turns, within the limit, and never wraps round |
| `TurnSlots.UndisturbedAttempt` | internal/agentchat/ws.go:139-148 | an attempt not interfered with starts its turn if and only if fewer turns run than the converted limit |
| `TurnSlots.IdleSessionAdmitsIff` | internal/agentchat/ws.go:135-143 | an idle session lets a turn start if and only if the low 32 bits of the limit, as a signed number, are positive (or the limit counts as one) |
| `TurnSlots.WrappedLimitAdmitsNothing` | internal/agentchat/ws.go:139-143 | under a limit whose conversion is not positive, 2^31 for one, no turn ever runs |

## Left out

- HTTP handlers, routing, request binding, response formatting, pagination and notifications: plumbing.
- Checks before a transaction that only read other components (content filter, capability checks on listing and booking) and malformed ids.
- Real refunds at the payment gateway: the call precedes the transaction, so only the records are covered.
- The user-day lock rows of a booking: a transaction is one step here; `OverlapSharesDay` shows what the lock has to cover.
- Database isolation anomalies, deadlocks and connection failures.
- Audit logs, report snapshots and the hiding of reported targets in moderation; an unknown capability name is not representable.
- The moderation cache with millisecond fractions, and a cache or Redis that does not answer.
- Redis key expiry while a guard is held, and the fail-open path on Redis errors.
- Course detail redirects, course creation rules, material upload and review text checks.
- Building the dependency graph with the Go tool, and validating it: the graph is an arbitrary input.
- Line-length errors of the diff scanner.
- Search, listings, chat, comments, topics, authentication, file storage and configuration: no property of comparable depth.
- Agent guards and compare-and-swap loop as code: modelled as interleaved steps, not as methods, since what matters is interference.
- Service calls that read, call out and then write are run without interference; interference between settlement attempts is in `SettlementWorkers`.
