# Verified model of the supply-chain backend

A Dafny 4.11 model of the parts of the backend where quantities, locks, caches and messages have to agree with each
other, with proofs of what they guarantee. `dafny verify dfyconfig.toml` verifies the whole project.

Each part has the same layers. A `...Model` or pool module holds the state as a value and says, as functions, what
each call does to it; the failures a call can meet are its parameters. A `...Laws` or `...Runs` module proves what
follows, over single calls and over whole runs. An `...Answers` module, and a few named after what they are about,
say of each call what it answers and stores, in terms of the request and the records before it, so that the
functions themselves are not taken on trust. A `...Service` module holds the classes whose methods do the work step
by step, loop by loop, and proves that each call leaves exactly the state and the result the functions say.

- **Deficit pool** (`DeficitPool`, `DeficitLaws`, `DeficitAnswers`, `DeficitRuns`, `DeficitRetries`,
  `DeficitDescent`, `DeficitLock`): draining the queue for one SKU, splitting, acknowledging, reserving, putting a
  remainder back, requeueing with bounded retries, dead-lettering.
- **Vendors** (`VendorRouting`, `VendorMetrics`, `VendorCache`, `VendorAnswers`): the best supplier of a SKU, the
  metrics it rests on, the shortage summary, and the read-through cache of the choice.
- **Sales** (`SalesModel`, `SalesLaws`, `SalesRuns`, `SalesQueue`, `SalesOrders`, `SalesAnswers`, `SalesService`):
  available-to-promise counters, reservations with compensation, the allocation queue, placing, editing and
  cancelling orders.
- **Procurement** (`Ledger`, `ProcurementModel`, `ProcurementAnswers`, `ReceivingLaws`, `ReceiptVerdicts`,
  `LockLaws`, `ShipmentLaws`, `OrderLaws`, `OrderTotals`, `ProcurementService`): purchase orders, shipments, goods
  receipts, stock and ledger in one state, with their status machines and expiring operator locks.
- **Bills of materials** (`BomModel`, `BomLaws`, `BomAnswers`, `BomTable`, `CatalogService`): the table with its
  constraints, the cached reads, assemblies written and read back.
- **Material requirements** (`MrpModel`, `MrpAnswers`, `ShortageLaws`, `ReadinessLaws`, `ReadinessService`,
  `DemandView`): explosion, shortage reconciliation, readiness status, buildable quantity, aggregated demand.
- **Hand-off** (`HandoffModel`, `HandoffLaws`, `HandoffAnswers`, `OrderSearch`, `HandoffAftermath`,
  `HandoffService`): shortages become purchase orders, composed from the vendor choice, the deficit pool and
  procurement, and what a second look at the same production order then finds.
- `Options`, `Sequences`, `Text` and `Money` hold what the others share.

Two reading conventions. A call is one atomic step: the services read, check and write without a transaction, so
interleavings inside a call are excluded by assumption. A write that fails changes nothing. Money and scores are
exact reals, clock values naturals, ids naturals or text with 0 or "" for the nil id.

## Where the code does not do what one would expect

Each of these is proved, most as an exact condition, and the code is modelled as it is.

- A reservation the broker refuses destroys the locked units, since the matched messages are acknowledged first
  (`DeficitLaws.UnitsLostIff`). Delayed republishes run after the connection is closed, so a run may also lose a
  message in flight (`Lose` in `DeficitRuns`).
- A summary row shows what can be locked unless a prefix of the pool exceeds its total, which takes a negative
  quantity (`VendorRouting.SummaryIsLockable`, `DeficitLaws.TotalIsLockableIff`).
- Defective lines are counted per line and divided by receipts, so quality can go far below zero and hide a SKU's
  only supplier (`VendorRouting.MetricsInRange`, `VendorRouting.MetricsHideTheOnlySupplierIff`).
- A failed lookup of the SKUs to invalidate is reported as success, and creating a supplier drops no key, so a
  cached choice can go stale (`VendorCache.LostInvalidationIff`, `VendorCache.NewSupplierIff`).
- A cancelled order is allocated if clearing the queue failed, which is not reported
  (`SalesRuns.CancelKeepsInvIff`, `SalesRuns.CancelledOrderIsAllocated`).
- A failed compensation of an allocation moves the promises or the books (`SalesRuns.PromisesStayIff`,
  `SalesRuns.BooksStayIff`).
- A repeated receipt that leaves out a SKU credits the purchase order with it again
  (`ReceivingLaws.RisesAgreeIff`).
- Ledger entries stamped alike can be read back in the wrong order (`Ledger.TiedEntriesLoseAChange`).
- A partially received order may go back in transit beside a new draft of its vendor
  (`OrderLaws.MoveKeepsOneBlockingIff`, `OrderLaws.OneBlockingUntilReopened`), and leaving draft by the general
  transition computes no total (`OrderLaws.MovingOutOfDraftSettlesIff`).
- The general shipment transition asks for no lock, so a held shipment can be sent off by anybody
  (`LockLaws.HeldShipmentMovesIff`).
- Updating an assembly with two components that are one part fails after the old rows are gone
  (`BomLaws.InsertRefusedIff`, `BomLaws.HalfReplacementCoherentIff`), and where-used reads of removed parts go
  stale (`BomLaws.WhereUsedRightIff`).
- Planning can leave a short order marked clear to build (`ReadinessLaws.PlanMatchesLogsIff`), and a shortage
  announcement that is lost is never repeated (`ShortageLaws.SecondSyncDoesNothing`).
- The search for the purchase orders of a model filters by a column that was dropped, so nothing is ever counted as
  incoming: a handed-off order stays short, and handing it off again is refused
  (`HandoffAftermath.NothingIsIncoming`, `HandoffAftermath.HandedOffOrderStaysShort`). With the column, drafts are
  found only by a code inside the word Draft or their id, and only on the first page
  (`OrderSearch.DraftsAreNotListed`, `HandoffAftermath.FoundHandoffClearsShortages`).
- The hand-off reserves deficit for a line it then cannot add (`HandoffLaws.LineGoesThrough`), cannot be repeated
  for a vendor whose draft it left half filled (`HandoffAftermath.HalfFilledDraftBlocksRetry`), and leaves the
  announcement that planning made behind in the pool (`HandoffAftermath.PlanningAnnouncementStays`).

## Model

| member | source | states |
|---|---|---|
| DeficitLock.DeficitLockManager.LockDeficit | scm/internal/consumer/deficit_lock.go:60-184 | Run message by message, with tags and acknowledgements, one lock request leaves the pool, the flight, the reservations and the dead letters of the value-level request, returns its outcome on every exit (locked, insufficient, broker error), and leaves nothing unacknowledged for the closing connection to hand back. |
| DeficitLock.DeficitLockManager.Drain | scm/internal/consumer/deficit_lock.go:65-100 | The fetch loop takes exactly the deliveries up to the first one that meets the need, or all of them, or those before the failing fetch, keeps them unacknowledged, and splits them into matched and unmatched in fetch order. |
| DeficitLock.DeficitLockManager.RequeueWithBackoff | scm/internal/consumer/deficit_lock.go:202-275 | A requeued message is acknowledged, its retry counter raised by one, and it is in flight if the raised counter is at most 5 and dead-lettered otherwise. |
| DeficitLock.DeficitLockManager.RequeueAll | scm/internal/consumer/deficit_lock.go:118-166 | Requeueing a batch acknowledges exactly that batch and sends its survivors to flight and its expired messages to the dead letters, in order. |
| DeficitLaws.LockConservesUnits | scm/internal/consumer/deficit_lock.go:60-184 | Units of every SKU over pool, flight, reservations and dead letters are the same before and after a request, on every exit and also when messages cross the retry limit, except for a reservation the broker refuses. |
| DeficitLaws.UnitsLostIff | scm/internal/consumer/deficit_lock.go:118-183 | Conservation fails exactly when the request consumed, the publish of the reservation was refused and the quantity was not zero: the matched messages are acknowledged before that publish. |
| DeficitAnswers.LockAnswers | scm/internal/consumer/deficit_lock.go:60-184 | A positive request is locked exactly when neither dialling, a fetch it makes nor the publish fails and a prefix of the pool covers it; it lacks deficit exactly when the drain goes through and no prefix does; it is a broker error otherwise. |
| DeficitAnswers.LockTakes | scm/internal/consumer/deficit_lock.go:65-116 | With any faults, what it takes off the front of the pool is the messages before the failing fetch, or the fewest that cover it, or all; behind the rest goes the surplus, if it is covered and there is one. |
| DeficitAnswers.CopiesAreCounted | scm/internal/consumer/deficit_lock.go:118-166 | The copies of a body that the conservation law counts are the places at which a queue holds a message with that SKU, quantity and order. |
| DeficitLaws.FailedLockLosesNothing | scm/internal/consumer/deficit_lock.go:118-166 | On every failing exit any quantity read off the message bodies is unchanged over pool, flight and dead letters, and the reservations are untouched. |
| DeficitLaws.FailedLockKeepsEveryBody | scm/internal/consumer/deficit_lock.go:118-166 | On every failing exit each message body (SKU, quantity, order) survives with exactly its multiplicity. |
| DeficitLaws.ConsumingLockBalance | scm/internal/consumer/deficit_lock.go:102-183 | A consuming request takes the matched messages out of any such balance and puts one remainder message and one reservation in. |
| DeficitLaws.DrainIsMinimal | scm/internal/consumer/deficit_lock.go:65-116 | The drain takes the shortest prefix of the pool that covers the request: no shorter one does, and it only goes on to the end when none does. |
| DeficitLaws.LockSucceedsIff | scm/internal/consumer/deficit_lock.go:102-116 | Without faults a request for at least one unit succeeds exactly when some prefix of the pool covers it, for quantities of any sign. |
| DeficitLaws.LockSucceedsIffTotal | scm/internal/consumer/deficit_lock.go:91-116 | With no negative quantity in the pool, it succeeds exactly when the pool holds at least that many units of the SKU. |
| DeficitLaws.CoveringTotalIsEnough | scm/internal/consumer/deficit_lock.go:91-116 | For quantities of any sign, a total that covers the request is enough for it to succeed. |
| DeficitLaws.TotalIsLockableIff | scm/internal/consumer/deficit_lock.go:91-116 | For quantities of any sign, the total is exactly what can be locked, for every positive quantity, if and only if no prefix of the pool exceeds it. |
| DeficitLaws.TotalIsNotThePrefix | scm/internal/consumer/deficit_lock.go:91-116 | With a negative message behind a covering prefix a request succeeds that the total does not cover, on a concrete pool. The other direction cannot fail (`CoveringTotalIsEnough`). |
| DeficitLaws.LockTakesTheLeast | scm/internal/consumer/deficit_lock.go:102-183 | On success exactly the requested quantity is reserved, and the remainder put back is smaller than the last matched message taken. |
| DeficitLaws.PublishThenLock | scm/internal/consumer/deficit_lock.go:102-175 | Publishing a quantity and then locking it succeeds exactly when a prefix of the pool covered it anyway or the pool held no negative total of the SKU, for quantities of any sign; then exactly it is reserved, and the units of every SKU in pool, flight and dead letters are as they were. |
| DeficitLaws.LockWorksOff | scm/internal/consumer/deficit_lock.go:110-116 | Every request that fetches something strictly lowers a non-negative measure of outstanding work, although the remainder message restarts with a fresh retry counter. |
| DeficitPool.RequeueConserves | scm/internal/consumer/deficit_lock.go:202-239 | Of any batch, survivors and expired messages together carry exactly what the batch carried. |
| DeficitRetries.RequeuedOnce | scm/internal/consumer/deficit_lock.go:202-239 | A requeued message with counter c sleeps with c + 1 if c is below 5 and is dead-lettered with c + 1 otherwise. |
| DeficitRetries.BatchRequeued | scm/internal/consumer/deficit_lock.go:118-166 | Of any batch exactly the messages with a counter below 5 sleep and all other well-formed ones are dead-lettered, each raised by one. |
| DeficitRetries.HandledMessage | scm/internal/consumer/deficit_lock.go:110-166 | Whatever request handles a message without locking it away, it is in flight or dead-lettered afterwards by that rule. |
| DeficitRetries.SixthRequeueIsTheLast | scm/internal/consumer/deficit_lock.go:202-275 | Over a run with any other events in between, a message published with counter 0 is in flight after each of its first five requeues and dead-lettered by the sixth. |
| DeficitPool.SplitUnits | scm/internal/consumer/deficit_lock.go:83-98 | Splitting puts all units of the requested SKU on one side and all others on the other. |
| DeficitRuns.StepBalance | scm/internal/consumer/deficit_lock.go:60-275 | Publications, locks, landing and lost republishes each move the books of every SKU by exactly what they bring in less what they destroy. |
| DeficitRuns.RunBalance | scm/internal/consumer/deficit_lock.go:60-275 | Over every run and for every SKU: units at the end plus units destroyed equal units at the start plus units brought in. |
| DeficitRuns.RunsAreBounded | scm/internal/consumer/deficit_lock.go:76-116 | With no new publications no run of effective locks and landings is longer than the work the pool holds at its start. |
| DeficitRuns.FinishedRunSettlesEverything | scm/internal/consumer/deficit_lock.go:60-275 | When pool and flight are empty, every unit that was there or was brought in is reserved, dead-lettered or accounted for as destroyed. |
| DeficitDescent.RequestDescends | scm/internal/consumer/deficit_lock.go:76-116 | Every effective request lowers, lexicographically, the units waiting in pool and flight, the tries left to their messages, and the malformed messages; none is ever negative. |
| DeficitDescent.BatchCostsTries | scm/internal/consumer/deficit_lock.go:202-239 | Requeueing a whole batch keeps at most its units and costs every well-formed message in it at least one try. |
| DeficitDescent.TriesAloneCanRise | scm/internal/consumer/deficit_lock.go:110-116 | The tries alone are no measure: a request that succeeds can raise them, on a concrete pool. |
| VendorRouting.VendorService.GetOptimalSupplier | scm/internal/service/vendor_service.go:135-159 | The scoring loop returns the specified choice. |
| VendorRouting.PickIsFirstBest | scm/internal/service/vendor_service.go:141-158 | The choice is index i exactly when mapping i is the first of maximal score, above -1, among the mappings with a resolvable supplier; there is none exactly when no such mapping scores above -1. |
| VendorRouting.ByPriceAscends | scm/internal/repository/sqlite/vendor_repo.go:31-40 | The mappings of a SKU are scanned in ascending price. |
| VendorRouting.ByPriceKeepsElements | scm/internal/repository/sqlite/vendor_repo.go:31-40 | Ordering by price neither drops nor repeats a mapping. |
| VendorRouting.OptimalIgnoresOthers | scm/internal/service/vendor_service.go:135-159 | Changing one supplier leaves the choice of every SKU without a mapping to that supplier unchanged. |
| VendorRouting.VendorService.UpdateSupplierMetrics | scm/internal/service/vendor_service.go:161-200 | The counting loops set the on-time rate and quality score of one supplier from all receipts of it, and change nothing else. |
| VendorMetrics.ReceiptsAreCounted | scm/internal/service/vendor_service.go:161-182 | The loop counts each receipt of the supplier once, and among them each complete one. |
| VendorMetrics.DefectsAreCounted | scm/internal/service/vendor_service.go:168-182 | It counts each line of those receipts with a positive defective quantity once. |
| VendorMetrics.RatesFromReceipts | scm/internal/service/vendor_service.go:183-200 | An update sets the on-time rate to the complete share of the receipts and quality to 100 less the defective lines for every hundred receipts, each to the nearest hundredth (0 and 100 without receipts), and changes nothing else. |
| VendorMetrics.RoundIsNearest | scm/internal/service/vendor_service.go:183-197 | Rounding gives the nearest integer, of two equally near ones that further from zero. |
| VendorRouting.MetricsInRange | scm/internal/service/vendor_service.go:183-197 | Both rates are at most 100 and the on-time rate at least 0; the quality score is not negative exactly when there is no receipt or 20000 times the excess of defective lines over receipts is below the number of receipts. |
| VendorRouting.OnlyMappingChosenIff | scm/internal/service/vendor_service.go:135-159 | With one mapping of a SKU there is no choice exactly when its supplier does not resolve or scores at most -1. |
| VendorRouting.MetricsHideTheOnlySupplierIff | scm/internal/service/vendor_service.go:135-200 | Recomputing metrics leaves a SKU's only supplier unoffered exactly when 60 times the rounded quality plus 40 times the rounded on-time rate, both in hundredths of a percent and read off its receipts, stay at least 10000 below the price. |
| VendorRouting.DefectiveLinesHideTheOnlySupplier | scm/internal/service/vendor_service.go:135-200 | Defective lines are counted per line but divided by receipts: with three of them a receipt the score is at most -200, and the supplier is not offered even as the only one, at any non-negative price. |
| VendorRouting.VendorService.AggregatePool | scm/internal/service/vendor_service.go:343-356 | The quantity of each SKU in the peeked pool and the SKUs in order of first appearance. |
| VendorRouting.SkusInOrder | scm/internal/service/vendor_service.go:343-356 | The SKUs of the pool come in the order in which they first appear. |
| VendorRouting.VendorService.GetShortageSummary | scm/internal/service/vendor_service.go:331-382 | One row for each SKU in the pool, in order of first appearance, with its total and the supplier of its cheapest mapping. |
| VendorAnswers.RowShowsCheapest | scm/internal/service/vendor_service.go:358-379 | Said of the mapping table: a row shows the supplier of the first cheapest mapping of its SKU by name, or the text for none. |
| VendorRouting.SummaryIsLockable | scm/internal/service/vendor_service.go:343-379 | A summary row shows exactly what can be locked of its SKU, for every positive quantity, if and only if no prefix of the pool exceeds its total; a pool without negative quantities has no such prefix. |
| VendorCache.CachedVendorService.GetOptimalSupplier | scm/internal/service/vendor_cache.go:28-42 | A hit is returned as it is, a miss asks the uncached service and fills the cache, with each cache call failing or not. |
| VendorAnswers.GetAnswers | scm/internal/service/vendor_cache.go:28-42 | What a read answers and keeps, with each cache call failing or not. |
| VendorCache.CachedVendorService.UpdateSupplierMetrics | scm/internal/service/vendor_cache.go:44-68 | A failed update is reported and changes nothing; after one that went through the keys of the supplier's SKUs are dropped, except those whose own delete fails, or all if looking them up fails. |
| VendorAnswers.UpdateAnswers | scm/internal/service/vendor_cache.go:44-68 | Exactly the keys of the SKUs with a mapping to the supplier are lost, unless the look-up or that delete fails; all others keep what they had. |
| VendorCache.CachedVendorService.CreateSkuMapping | scm/internal/service/vendor_cache.go:78-87 | A mapping that cannot be stored is reported and changes nothing; after one that is stored the key of its SKU is dropped, unless the delete fails. |
| VendorAnswers.AdditionAnswers | scm/internal/service/vendor_cache.go:70-87 | What a new mapping, supplier or receipt adds, and which key goes. |
| VendorCache.StepKeepsCoherent | scm/internal/service/vendor_cache.go:28-87 | Every reliable step keeps each cached supplier equal to the uncached choice. |
| VendorCache.RunAnswersOptimally | scm/internal/service/vendor_cache.go:28-87 | In every run of reads, metric updates and creations whose deletes succeed and whose new suppliers have ids no mapping mentions, every read answers what the uncached choice answers. |
| VendorCache.LostInvalidationIff | scm/internal/service/vendor_cache.go:44-68 | After a metric update the cache is right exactly when, for each cached SKU of the supplier whose key was not dropped, its recomputed record is the one it had or the winner is somebody else's mapping that stays ahead of all of the supplier's mappings under that record (ties only for later ones): read off the state before the call. |
| VendorCache.ChoiceStaysIff | scm/internal/service/vendor_service.go:135-159 | Giving a supplier a new record leaves the choice of a SKU alone exactly when that is the record it had or the winner stays, in the same sense. |
| VendorCache.NewSupplierIff | scm/internal/service/vendor_cache.go:74-76 | Creating a supplier drops nothing: the cache stays right exactly when the winner of every cached SKU stays against the mappings that already name the new id. |
| VendorCache.LateSupplierOvertakes | scm/internal/service/vendor_cache.go:74-76 | It does go wrong: whenever a SKU has two mappings of which only the winner's supplier exists, and the other supplier is created with a better score. |
| VendorCache.RecoveredSupplierOvertakes | scm/internal/service/vendor_cache.go:44-68 | And whenever a supplier's recomputed metrics beat the cached winner and the lookup of its SKUs fails, which is reported as success. |
| SalesService.SalesBackend.RebuildQueue | sales/internal/service/fulfillment_service.go:35-63 | The queue is cleared and refilled with the pending orders, up to the enqueue that fails; the entries are returned only if all went in. |
| SalesQueue.RebuildQueuesThePending | sales/internal/service/fulfillment_service.go:35-63 | A rebuild without faults queues an order exactly when it is listed and pending, under its own client, required date and creation time, sorted by time and then id, and changes nothing else. |
| SalesQueue.BrokenRebuildQueuesAPrefix | sales/internal/service/fulfillment_service.go:44-60 | One whose enqueue fails has queued exactly the pending orders of a prefix of the rows. |
| SalesAnswers.RebuildAnswers | sales/internal/service/fulfillment_service.go:35-63 | A rebuild goes through exactly when the orders can be read and no enqueue fails before the last pending order. |
| SalesAnswers.PendingAppend | sales/internal/service/fulfillment_service.go:44-60 | The entries a rebuild answers follow the rows: one more row adds the entry of its order at the end if that is pending. |
| SalesService.SalesBackend.GetQueueStatus | sales/internal/service/fulfillment_service.go:65-77 | A failing listing is reported; an empty queue is rebuilt, with the failures of a rebuild, and any other is returned as it is. |
| SalesAnswers.QueueAnswers | sales/internal/service/fulfillment_service.go:65-111 | The queue is rebuilt only when it is empty, and a failed listing or rebuild ends the call with nothing allocated. |
| SalesService.SalesBackend.AllocateOrder | sales/internal/service/fulfillment_service.go:117-177 | Check of every counter, reservation, booking and order update with the compensation of each failure lead to exactly the specified state and result. |
| SalesAnswers.AllocAnswers | sales/internal/service/fulfillment_service.go:117-177 | An order is allocated exactly when it exists, every counter can be read and covers its item, it has no reservation yet and no write fails; it is short exactly when a counter that is read does not cover its item. |
| SalesAnswers.AllocKeepsOneReservation | sales/internal/service/fulfillment_service.go:142-168 | Whatever fails, in any state, no order gets a second reservation and no other order's reservation changes. |
| SalesAnswers.AllocTouchesItsOwn | sales/internal/service/fulfillment_service.go:117-177 | Nor does any other order or held quantity. |
| SalesService.SalesBackend.ProcessQueue | sales/internal/service/fulfillment_service.go:79-111 | The drain leaves the specified state, returns the manifests of the orders allocated and what ended it: an empty queue, a failing listing, rebuild or dequeue, or the head that could not be allocated. |
| SalesQueue.ProcessingLeavesNonePending | sales/internal/service/fulfillment_service.go:79-111 | At any point of a reliable run, working off an empty queue without faults leaves no order pending, or stops at a head with an item its counter does not cover. |
| SalesQueue.DrainSettlesThePending | sales/internal/service/fulfillment_service.go:91-109 | A drain without faults keeps every pending order queued, and ends with an empty queue or at an uncovered head. |
| SalesQueue.RunListsOrders | sales/internal/service/order_service.go:37-485 | In every run, whatever fails, the rows a rebuild reads list exactly the orders there are. |
| SalesAnswers.HeadLeavesUnless | sales/internal/service/fulfillment_service.go:91-109 | The head leaves the queue unless it cannot be taken off or is short and put back, and then the queue is what it was. |
| SalesAnswers.DrainAnswers | sales/internal/service/fulfillment_service.go:91-111 | A drain answers success exactly when every queued order was handed out. |
| SalesService.SalesBackend.ReserveInventory | sales/internal/repository/valkey/reservations.go:15-34 | Item by item the counter is checked before anything is written; if every one covers its item the counters go down by all items and the quantities are noted under the order, the later of two equal keys winning, and otherwise nothing changes. |
| SalesAnswers.ReservableIff | sales/internal/repository/valkey/reservations.go:15-34 | For items with distinct keys the pipeline's look at the counters passes exactly when it overdraws none of them. |
| SalesService.SalesBackend.ReleaseInventory | sales/internal/repository/valkey/reservations.go:36-55 | The noted quantities are added back and the note is dropped. |
| SalesService.SalesBackend.ValidateItems | sales/internal/service/order_service.go:44-99 | Items are accepted exactly when each has a SKU, a positive quantity and a price and no two share a normalised SKU; the total is the sum of quantity times price. |
| SalesOrders.ValidatedIff | sales/internal/service/order_service.go:44-99 | Items are accepted exactly when each has a SKU, a positive quantity and a price and no two share a trimmed, upper-cased SKU, and then item by item as the trimmed SKU, the requested quantity and the catalogue's price. |
| SalesOrders.TotalOfOne | sales/internal/service/order_service.go:84-99 | The total of one item is quantity times price. |
| SalesOrders.TotalOfSum | sales/internal/service/order_service.go:84-99 | Totals of lists add up. |
| SalesService.SalesBackend.CreateOrder | sales/internal/service/order_service.go:37-184 | A new pending order and its queue entry, or what each failure leaves of them. |
| SalesOrders.PlacedAsRequested | sales/internal/service/order_service.go:37-184 | A call that is Ok stores one pending, unlocked order with the requested client, address, date, items and their cost, lists it last and queues it unless just that failed; which calls are Ok or refused is said of the request and the faults. |
| SalesOrders.FailedPlacement | sales/internal/service/order_service.go:120-184 | A call that fails has written nothing, or the order with the items before the one that failed, not queued. |
| SalesService.SalesBackend.UpdateOrder | sales/internal/service/order_service.go:341-449 | Only an unlocked pending order changes; items are replaced before the order is written, and the queue is cleared last. |
| SalesOrders.EditedAsRequested | sales/internal/service/order_service.go:341-449 | A call that is Ok leaves the order with the requested items at catalogue prices and their cost as total, or the old ones when none are requested; address and date as requested or as they were; client, time and status kept; every other order unchanged; and the queue empty. It is refused exactly for a locked, missing or not pending order, an empty request or items that are not orderable. |
| SalesOrders.FailedEdit | sales/internal/service/order_service.go:405-449 | A call that fails has written nothing, the items alone, or everything with the queue left standing. |
| SalesService.SalesBackend.CancelOrder | sales/internal/service/order_service.go:451-485 | Only an unlocked pending order is cancelled; failing to clear the queue goes unreported. |
| SalesOrders.CancelledAsAsked | sales/internal/service/order_service.go:451-485 | A cancellation is refused exactly for an order that is not unlocked and pending, and changes its status alone, with the queue emptied unless that fails. |
| SalesLaws.CheckedNeverOverdraws | sales/internal/service/fulfillment_service.go:128-140 | Checking each item on its own keeps every counter non-negative, because validated items share no counter. |
| SalesLaws.RepeatedSkuOverdraws | sales/internal/service/fulfillment_service.go:128-140 | With a repeated SKU the same check lets a counter go negative, on a concrete order. |
| SalesLaws.ReleaseUndoesReserve | sales/internal/repository/valkey/reservations.go:15-55 | Releasing a reservation of well-formed items restores every counter exactly. |
| SalesLaws.EnqueueShape | sales/internal/repository/valkey/queue.go:12-26 | Enqueueing keeps the queue sorted with distinct orders, and replaces the order's old entry. |
| SalesLaws.FailedAllocRestores | sales/internal/service/fulfillment_service.go:142-168 | Every failing exit up to and including the order update restores counters, reservations and the order. |
| SalesLaws.BookedBalance | sales/internal/service/fulfillment_service.go:117-177 | A booked allocation moves quantities from counters to reservations, SKU by SKU, and leaves counters non-negative. |
| SalesLaws.AllocKeepsInv | sales/internal/service/fulfillment_service.go:117-177 | Allocating a dequeued pending order keeps the run invariant and the promise of every SKU, with any failure whose compensation succeeds. |
| SalesRuns.ValidatedIsWellFormed | sales/internal/service/order_service.go:44-59 | Accepted items are positive and share no counter. |
| SalesRuns.ProcessedKeeps | sales/internal/service/fulfillment_service.go:91-109 | A drain whose compensations succeed keeps the invariant and every promise and leaves orders that are not pending alone. |
| SalesRuns.StepKeeps | sales/internal/service/order_service.go:37-485 | Every service call keeps the invariant and every promise, provided a created order's id is fresh, the compensations of a failed allocation succeed and a cancellation clears the queue. |
| SalesRuns.RunKeepsPromises | sales/internal/service/fulfillment_service.go:35-177 | In every run of order creation, edit, cancellation, queue reads and queue processing (creation ids fresh, compensations succeeding, cancellations clearing the queue): counter plus reservations of each SKU is constant, no counter is negative, an order is reserved iff processing iff locked, and the queue holds distinct pending orders. |
| SalesRuns.RunFollowsDeclaredTransitions | sales/internal/models/sales_order.go:27-41 | In every such run (creation ids fresh, compensations succeeding, cancellations clearing the queue) every status an order passes through is reached by declared transitions, although the services never ask. |
| SalesAnswers.DeclaredTransitions | sales/internal/models/sales_order.go:27-41 | The declared transitions, one by one. |
| SalesRuns.FreshStateIsSound | sales/internal/service/fulfillment_service.go:23-29 | The service starts in a state satisfying the run invariant, whatever its non-negative stock. |
| SalesRuns.DrainHandsOutInOrder | sales/internal/service/fulfillment_service.go:91-109 | In a drain whose compensations succeed manifests come out in queue order, each with the client, address and item quantities of an order that went from pending to processing and holds a reservation at the end. |
| SalesRuns.AllocatedAtMostOnce | sales/internal/service/fulfillment_service.go:79-177 | In every such run (creation ids fresh, compensations succeeding, cancellations clearing the queue) an order is allocated (reserved, booked and marked processing) at most once, and not at all once it has left pending. |
| SalesRuns.CancelKeepsInvIff | sales/internal/service/order_service.go:451-485 | A cancellation keeps the run invariant exactly unless it goes through, clearing the queue fails, and the order is queued. |
| SalesRuns.DrainStopsOnlyForStock | sales/internal/service/fulfillment_service.go:91-109 | A drain without faults stops early only at an order whose items the counters do not cover. |
| SalesRuns.ReinsertFirst | sales/internal/service/fulfillment_service.go:98-104 | Requeueing the entry just taken restores the queue. |
| SalesRuns.CancelledOrderIsAllocated | sales/internal/service/order_service.go:471-484 | What becomes of it: an order at the head of the queue whose items the counters cover is allocated after its cancellation was reported as done, in every sound state; cancelled to processing is not a declared transition. |
| SalesRuns.FailedReleaseLeaks | sales/internal/service/fulfillment_service.go:142-168 | For every allocation that got past check and reservation, with every combination of faults: the promise of a SKU drops by the order's quantity if the order is not booked and the release fails, and rises by it if the order update and then the deletion of the reservation fail. |
| SalesRuns.PromisesStayIff | sales/internal/service/fulfillment_service.go:142-168 | So the promises of all SKUs stay exactly when the order is booked, has no items, or both compensations fail or neither does. |
| SalesRuns.BooksStayIff | sales/internal/service/fulfillment_service.go:142-168 | The books agree (reserved iff held iff processing) exactly when the order is booked or neither compensation fails: with both failing the promises balance, but a pending order is reserved. |
| Ledger.RunningBalances | scm/internal/service/ledger_service.go:27-52 | From any ledger, each new entry's running balance is the starting balance of its SKU plus all changes recorded for it since. |
| Ledger.LatestIsGreatest | scm/internal/repository/sqlite/ledger_repo.go:49-58 | The latest entry of a SKU is the one of the greatest instant and, at equal instants, the greatest id. |
| Ledger.BalanceIsSumOfChanges | scm/internal/service/ledger_service.go:27-52 | The balance a later reader sees is the starting balance plus everything recorded. |
| Ledger.RecordMovesBalance | scm/internal/service/ledger_service.go:30-48 | A write that is the newest of its SKU by instant and id moves that SKU's balance by its change; any other write moves no balance. |
| Ledger.TiedEntriesLoseAChange | scm/internal/repository/sqlite/ledger_repo.go:49-58 | Two entries of one SKU stamped alike can be read back in the wrong order, and a change is lost from the running balance, on a concrete ledger. |
| ProcurementService.LedgerService.RecordEntry | scm/internal/service/ledger_service.go:27-52 | One entry continuing the SKU's latest balance, or nothing if the write fails. |
| ProcurementService.GoodsReceiptService.AcquireLock | scm/internal/service/goods_receipt_service.go:281-300 | Refused while another operator holds an unexpired lock; otherwise held by the caller for 60 minutes. |
| ProcurementAnswers.ReceiptLockAnswers | scm/internal/service/goods_receipt_service.go:281-300 | Refused exactly while somebody else's unexpired lock is on the receipt; otherwise lock and receipt are the caller's until 60 minutes from now. |
| ProcurementService.GoodsReceiptService.ReleaseLock | scm/internal/service/goods_receipt_service.go:419-425 | The lock is cleared. |
| ProcurementService.GoodsReceiptService.ReceiveLines | scm/internal/service/goods_receipt_service.go:325-363 | The counting loop saves, stocks and enters line after line and stops at the first that fails, leaving exactly what was done until then. |
| ProcurementService.GoodsReceiptService.CreditOrder | scm/internal/service/goods_receipt_service.go:371-393 | Each order line in hand is credited with everything the receipt's lines say was received of its SKU; a line whose save fails, which is ignored, stays as it was in the table. |
| ProcurementService.GoodsReceiptService.FinishReceipt | scm/internal/service/goods_receipt_service.go:371-417 | Order credited, receipt judged, order closed as received or partial once no receipt of it is open. |
| ProcurementService.GoodsReceiptService.ProcessBlindReceipt | scm/internal/service/goods_receipt_service.go:302-417 | The whole call: lock checks, counting, crediting and closing, with each write failing or not, leads to exactly the specified tables and result. |
| ReceiptVerdicts.ReceiveAnswers | scm/internal/service/goods_receipt_service.go:302-417 | What the call answers in every case: missing, not the caller's lock, expired, done, or failed. |
| ReceiptVerdicts.Verdict | scm/internal/service/goods_receipt_service.go:395-417 | Over the state before the call and the counts: the receipt becomes a discrepancy exactly when some counted line differs from what was ordered or has defects, and complete otherwise; the order, if no other receipt of it is open, becomes received exactly when every line's quantity plus its credit reaches what was ordered, and partial otherwise. A failing write leaves its status. |
| ReceiptVerdicts.WrittenLines | scm/internal/service/goods_receipt_service.go:325-393 | Each counted receipt line gets received and defective quantity and the over-age mark of the aging rule; each order line is credited with what the receipt now says of its SKU, unless its save failed; nothing else of either changes. |
| ReceiptVerdicts.CountingBreaksOff | scm/internal/service/goods_receipt_service.go:325-363 | The loop breaks off at the first counted line that cannot be saved or stocked: lines before it are counted, lines behind it are as they were. |
| ReceivingLaws.CountingGap | scm/internal/service/goods_receipt_service.go:345-362 | Every exit of the counting loop moves stock and ledger together, but for what was missed. |
| ReceivingLaws.ReceiveGap | scm/internal/service/goods_receipt_service.go:345-362 | Stock minus latest ledger balance changes over a receiving call by exactly the positive counts whose ledger write failed twice and the negative counts. |
| ReceivingLaws.RunKeepsGap | scm/internal/service/goods_receipt_service.go:325-363 | Over every run of procurement calls with non-negative counts and ledger writes that succeed within two tries, stock minus ledger balance of every SKU is constant, also through calls that fail part-way. |
| ReceivingLaws.RunLedgerIsOrdered | scm/internal/service/ledger_service.go:27-52 | However calls interleave, the ledger of a run is the starting ledger followed by writes in clock order, and every running balance continues its SKU's. |
| ReceivingLaws.OnlyReceivingStocks | scm/internal/service/goods_receipt_service.go:345-362 | No other procurement call touches stock, ledger or clock. |
| ReceivingLaws.ReceiveRises | scm/internal/service/goods_receipt_service.go:325-393 | A completed call raises stock by the count once per receipt line, and each order line whose credit is saved by all the receipt now says was received. |
| ReceivingLaws.RisesAgreeIff | scm/internal/service/goods_receipt_service.go:371-393 | For a SKU on one order line, order and stock rise alike exactly when the SKU is counted in the call or its receipt lines held nothing before (a second call that leaves a SKU out credits it again), and if saving the credit failed, exactly when nothing of it is counted. |
| ReceivingLaws.FirstReceiptAgrees | scm/internal/service/goods_receipt_service.go:325-383 | A first, complete receipt raises stock, ledger balance and order line of every SKU on one order line, whose credit is saved, by the same amount, even when the SKU repeats across receipt lines. |
| ReceivingLaws.ReceiveFrame | scm/internal/service/goods_receipt_service.go:302-417 | Receiving touches no shipment, no other receipt, and neither order reference nor lock of its own. |
| LockLaws.ReceiptLockExcludes | scm/internal/service/goods_receipt_service.go:281-323 | From a successful acquisition, in every run before expiry without a release, nobody but the holder acquires or processes the receipt, including across renewals. |
| LockLaws.AcquiringReceiptHolds | scm/internal/service/goods_receipt_service.go:281-300 | A successful acquisition establishes the hold the exclusion starts from. |
| LockLaws.ShipmentLockExcludes | scm/internal/service/shipment_service.go:383-451 | From a successful acquisition, in every run before expiry without a release or dispatch, nobody but the holder acquires or dispatches the shipment. |
| LockLaws.AcquiringShipmentHolds | scm/internal/service/shipment_service.go:383-411 | A successful acquisition establishes the hold the exclusion starts from. |
| LockLaws.HeldShipmentMovesIff | scm/internal/service/shipment_service.go:424-521 | While somebody holds a shipment its status changes exactly by the holder's dispatch, by a valid general transition, or by a delivery of an under-way shipment: only the first asks for the lock. |
| LockLaws.TransitionPassesTheHolder | scm/internal/service/shipment_service.go:511-521 | So anybody can send a held, scheduled shipment on its way; the hold stands, and the holder's dispatch, which would have gone through, is refused. |
| LockLaws.ExpiryBoundary | scm/internal/service/goods_receipt_service.go:288-316 | At the instant of expiry another operator may already acquire and the holder may still process; afterwards only another may. |
| ProcurementService.ShipmentService.AcquireDispatchLock | scm/internal/service/shipment_service.go:383-411 | Refused once dispatched, and while another operator holds an unexpired lock; otherwise held for 30 minutes. |
| ProcurementAnswers.ShipmentLockAnswers | scm/internal/service/shipment_service.go:383-411 | Refused exactly once dispatched or while somebody else's unexpired lock is on the shipment; otherwise the caller's until 30 minutes from now. |
| ProcurementService.ShipmentService.DispatchShipment | scm/internal/service/shipment_service.go:424-451 | Only a scheduled shipment whose lock the caller holds goes under way, and its lock is cleared. |
| ProcurementAnswers.DispatchAnswers | scm/internal/service/shipment_service.go:424-451 | Each answer and its exact condition; status and lock alone change. |
| ProcurementService.ShipmentService.TransitionState | scm/internal/service/shipment_service.go:511-521 | A general transition follows the journey relation. |
| ProcurementAnswers.MoveShipmentAnswers | scm/internal/service/shipment_service.go:511-521 | Each answer and its exact condition; the status alone changes. |
| ProcurementService.ShipmentService.MarkDelivered | scm/internal/service/shipment_service.go:453-509 | An under-way shipment is marked delivered first and then given a receipt mirroring the order; each failure leaves what was written until then. |
| ProcurementAnswers.DeliverAnswers | scm/internal/service/shipment_service.go:453-509 | Each answer and its exact condition, and with each failure what is left: the mark, no receipt, or one with the order's lines before the failing one. |
| ProcurementService.ShipmentService.CreateShipment | scm/internal/service/shipment_service.go:545-576 | A shipment of the given status for an existing order, with one item for each order line, except those whose write fails, which goes unreported. |
| ProcurementAnswers.NewShipmentAnswers | scm/internal/service/shipment_service.go:545-576 | Needs its order and a free id; starts unlocked in the given status. |
| ShipmentLaws.ClonedItems | scm/internal/service/shipment_service.go:557-573 | The items are the order's lines one for one exactly when no item write failed. |
| ProcurementAnswers.ClonedOneMore | scm/internal/service/shipment_service.go:557-573 | One more order line is one more item at the end, unless its write fails. |
| ProcurementService.IsValidShipmentTransition | scm/internal/service/shipment_service.go:605-632 | The index scan decides the journey relation: forward only, delays only from and back to being under way. |
| ShipmentLaws.JourneyTable | scm/internal/service/shipment_service.go:605-632 | The journey relation, pair by pair. |
| ShipmentLaws.RunAdvances | scm/internal/service/shipment_service.go:424-521 | In every run scheduled is never re-entered and delivered is final. |
| ShipmentLaws.DispatchedAtMostOnce | scm/internal/service/shipment_service.go:424-451 | In any run a shipment is dispatched at most once, and never after it left scheduled. |
| ShipmentLaws.DeliveredAtMostOnce | scm/internal/service/shipment_service.go:453-509 | In any run a shipment creates a receipt by delivery at most once. |
| ShipmentLaws.StepReceipts | scm/internal/service/shipment_service.go:453-509 | Receipts are added only by a delivery, one at a time, and never lose their order. |
| ShipmentLaws.DeliveryCreatesAMirror | scm/internal/service/shipment_service.go:466-509 | In every run the receipt id a delivery generates is unused, and the receipt it creates has the order's lines one for one with nothing counted. |
| ShipmentLaws.ReceiptGrowth | scm/internal/service/shipment_service.go:453-509 | A call adds at most one receipt, and only if it is a delivery. |
| ShipmentLaws.RunReceiptGrowth | scm/internal/service/shipment_service.go:453-509 | In any run at most one receipt is added for each distinct shipment delivered in it. |
| ProcurementService.PurchaseOrderService.CreateDraft | scm/internal/service/po_service.go:167-188 | A draft numbered by the count of the year, unless the vendor has a blocking order. |
| ProcurementAnswers.DraftAnswers | scm/internal/service/po_service.go:167-188 | Refused exactly while the vendor has an order in draft, approved or in transit; otherwise an empty, untotalled draft under the number after the count of the year. |
| ProcurementService.PurchaseOrderService.AddLineItemWithLock | scm/internal/service/po_service.go:190-220 | The deficit is locked first and the line added at the stock row's unit cost; every failure leaves what was done until then. |
| ProcurementAnswers.LineAnswers | scm/internal/service/po_service.go:190-220 | Each answer and its exact condition; the deficit moves by its own request whatever becomes of the line, which is stored with nothing received at the stock row's unit cost. |
| ProcurementService.PurchaseOrderService.ApproveOrder | scm/internal/service/po_service.go:222-238 | A draft becomes approved with the value of its lines as total. |
| OrderTotals.ApprovedAtCost | scm/internal/service/po_service.go:222-238 | A draft that is filled over a run and then approved has as total the sum, over the lines added, of quantity times the unit cost in stock at that call. |
| OrderTotals.ValueOfOne | scm/internal/service/po_service.go:230-235 | The value of one line is ordered quantity times price. |
| OrderTotals.ValueOfSum | scm/internal/service/po_service.go:230-235 | Values of lists add up. |
| ProcurementAnswers.ApproveAnswers | scm/internal/service/po_service.go:222-238 | Only a draft is approved, and only its status and total change. |
| ProcurementService.PurchaseOrderService.TransitionState | scm/internal/service/po_service.go:240-259 | A general transition follows the status relation and waits for open receipts. |
| ProcurementAnswers.MoveAnswers | scm/internal/service/po_service.go:240-259 | Each answer and its exact condition, and that the status alone changes. |
| ProcurementService.IsValidTransition | scm/internal/service/po_service.go:307-336 | The index scan decides the status relation: forward only, but partial may go back in transit. |
| OrderLaws.TransitionTable | scm/internal/service/po_service.go:307-336 | The status relation, pair by pair. |
| OrderLaws.RunKeepsOnePreparing | scm/internal/service/po_service.go:167-188 | In every run at most one order per vendor is in draft or approved. |
| OrderLaws.MoveKeepsOneBlockingIff | scm/internal/service/po_service.go:240-259 | The wider reading, one order per vendor in draft, approved or in transit, survives a general transition exactly unless it goes through and takes a partially received order back in transit while its vendor has a blocking order. |
| OrderLaws.OneBlockingUntilReopened | scm/internal/service/po_service.go:167-259 | Over a run the wider reading holds as long as no order is reopened in that way, and the first reopening ends it. |
| OrderLaws.StepFollows | scm/internal/service/po_service.go:167-259 | Every call moves every order forward as the status relation allows, and only drafting adds one. |
| OrderLaws.DraftNeverCollides | scm/internal/service/po_service.go:173-187 | In every run the number a draft is given is free, so drafting fails only for a busy vendor or a refused write. |
| OrderLaws.ApprovalFixesTotal | scm/internal/service/po_service.go:222-238 | Once approved, an order's total is the value of its lines in every later state of every run. |
| OrderLaws.RunKeepsDraftsUntotalled | scm/internal/service/po_service.go:167-259 | In every run a draft has total zero. |
| OrderLaws.MovingOutOfDraftSettlesIff | scm/internal/service/po_service.go:240-259 | Leaving draft by the general transition computes no total: the order is settled exactly when its lines are worth nothing. |
| OrderLaws.ReceiveWrites | scm/internal/service/goods_receipt_service.go:371-414 | A receiving call writes its own order at most: credited lines and perhaps a closing status. |
| CatalogService.ProductionService.GetBomByModelCode | mrp/internal/repository/valkey/bom.go:18-40 | A hit is returned, a miss read from the table and cached, with each cache call failing or not; nothing is returned when the table cannot be read. |
| CatalogService.ProductionService.GetAllBoms | mrp/internal/repository/valkey/bom.go:42-64 | The same for the read of the whole table. |
| BomAnswers.ReadAnswers | mrp/internal/repository/valkey/bom.go:18-88 | Every read and its exact condition: from the cache, from the table, or not at all, and what is kept. |
| BomAnswers.ModelReadFollowsRows | mrp/internal/repository/sqlite/bom_entries.go:60-90 | One more row adds its entry at the end of its model's read exactly when it is not deleted. |
| BomAnswers.WhereUsedReadFollowsRows | mrp/internal/repository/sqlite/bom_entries.go:60-90 | The same for the read by part. |
| BomAnswers.TableReadAscends | mrp/internal/repository/sqlite/bom_entries.go:92-125 | The read of the whole table holds the live entries in ascending model. |
| CatalogService.ProductionService.InvalidateBom | mrp/internal/repository/valkey/bom.go:90-105 | The whole-table key, the model's key and the where-used keys of the parts are dropped together, or none. |
| CatalogService.ProductionService.CreateEntries | mrp/internal/repository/sqlite/bom_entries.go:12-35 | All entries are appended in order with fresh ids, or none when a constraint refuses one. |
| BomAnswers.AppendedRows | mrp/internal/repository/sqlite/bom_entries.go:12-35 | The new rows come last, in the order of the entries, undeleted and with the next ids. |
| CatalogService.ProductionService.HardDelete | mrp/internal/repository/sqlite/bom_entries.go:44-49 | The rows of one model, deleted ones included, are removed and all others kept in order. |
| BomAnswers.WithoutModelAppend | mrp/internal/repository/sqlite/bom_entries.go:44-49 | Row by row: those of other models stay in their order. |
| CatalogService.ProductionService.SoftDelete | mrp/internal/repository/sqlite/bom_entries.go:37-42 | The rows of one model are marked deleted and all others kept; the nil model marks nothing. |
| BomAnswers.SoftDeletedRows | mrp/internal/repository/sqlite/bom_entries.go:37-42 | Row by row: the mark of the model's rows, and nothing else. |
| CatalogService.ProductionService.ResolveComponents | mrp/internal/service/catalog_service.go:119-138 | The request becomes entries exactly when every quantity is positive and every SKU resolves; creation also refuses a SKU text given twice. |
| BomAnswers.ResolveAnswers | mrp/internal/service/catalog_service.go:119-138 | A request resolves exactly when every quantity is positive, every trimmed text names a part and, where repeats are looked for, no text is given twice; then component by component. |
| CatalogService.ProductionService.CreateAssembly | mrp/internal/service/catalog_service.go:110-162 | Validation, delete, insert, invalidation and sync in turn, with what each failure leaves. |
| CatalogService.ProductionService.UpdateAssembly | mrp/internal/service/catalog_service.go:164-216 | The same without the check for repeated SKU texts. |
| BomAnswers.ReplaceAnswers | mrp/internal/service/catalog_service.go:110-216 | Each answer and its exact condition, the rows and keys that are left, and that a write refused by the table has already lost the old rows. |
| CatalogService.ProductionService.DeleteAssembly | mrp/internal/service/catalog_service.go:218-237 | The model's rows are soft-deleted and its reads dropped. |
| BomAnswers.RemoveAnswers | mrp/internal/service/catalog_service.go:218-237 | The model's rows are marked, and the reads of the whole table and the model go, not those of its parts. |
| CatalogService.ProductionService.GetAssemblyByModelCode | mrp/internal/service/catalog_service.go:51-108 | The merge loop returns the SKUs in order of first appearance with repeats added up; it fails when the table or a part cannot be read. |
| BomAnswers.NamesInOrder | mrp/internal/service/catalog_service.go:72-101 | The SKUs come in the order in which they first appear. |
| CatalogService.ProductionService.GroupAssemblies | mrp/internal/service/catalog_service.go:361-401 | One assembly for each model in order of first appearance, each the merge of its own entries. |
| BomAnswers.ModelsInOrder | mrp/internal/service/catalog_service.go:361-401 | So do the models. |
| BomLaws.OrderingKeepsModels | mrp/internal/repository/sqlite/bom_entries.go:92-125 | Reading the whole table by model keeps each model's entries in id order. |
| BomLaws.ReplacementReads | mrp/internal/repository/sqlite/bom_entries.go:12-90 | After a replacement the model reads as the new entries and every other model as before. |
| BomLaws.RunKeepsOthers | mrp/internal/repository/sqlite/bom_entries.go:12-90 | A run that does not write a model, whatever fails in it, leaves what the table holds of that model. |
| BomLaws.StepKeepsCoherent | mrp/internal/repository/valkey/bom.go:18-105 | Every read and every write that goes through keeps cached by-model and whole-table reads equal to the table. |
| BomLaws.RunReadsTheTable | mrp/internal/repository/valkey/bom.go:18-105 | In every run of such writes and any reads, every read by model and of the whole table gives what the table holds. |
| BomLaws.InsertRefusedIff | mrp/internal/repository/sqlite/bom_entries.go:12-35 | After the old rows are gone, the insert is refused exactly when two components are the same part. |
| BomLaws.HalfReplacementCoherentIff | mrp/internal/service/catalog_service.go:195-203 | A replacement that fails between its transactions drops nothing: the cache is right afterwards exactly when the model had no live entries or neither read of it was cached. |
| BomLaws.WhereUsedRightIff | mrp/internal/service/catalog_service.go:195-203 | A where-used read that was right stays right over a replacement exactly when its part is in the new bill or was not in the old one. |
| BomLaws.AssemblyReadsBack | mrp/internal/service/catalog_service.go:51-162 | In every run of sound calls that does not write the model again, cached or not, the assembly last written is read back as one component for each SKU text its parts have by then, in order of first appearance, with the quantities of parts sharing a text added up. |
| BomLaws.ReadsBackAsWritten | mrp/internal/service/catalog_service.go:51-162 | With a catalogue that reads parts back under the texts they were found by, those are the components as written, in order, with trimmed SKUs and the same quantities. |
| BomLaws.GroupsAgreeWithModels | mrp/internal/service/catalog_service.go:361-401 | Grouping the whole table gives each model the assembly its own read gives. |
| BomTable.RunHandsOutDistinctComponents | mrp/internal/repository/sqlite/bom_entries.go:12-90 | In every run, whatever fails, (model, part) stays unique and quantities positive, so a model's components are distinct parts. |
| ReadinessService.RunBomExplosion | mrp/internal/service/readiness_service.go:42-144 | The nested loops compute the explosion: one requirement an entry, or an error. |
| MrpAnswers.ExplosionAnswers | mrp/internal/service/readiness_service.go:79-141 | An explosion succeeds exactly when every entry asks for a positive quantity of a known part with a SKU; each line then has that part, SKU, quantity, stock, what is coming in and whether it falls short. |
| ReadinessService.IncomingQty | mrp/internal/service/readiness_service.go:115-131 | Open orders count with what is ordered, partially received ones with what is still to come. |
| MrpAnswers.IncomingOfOneLine | mrp/internal/service/readiness_service.go:109-131 | A line of an order in draft, approved or in transit counts in full, of a partial one with what is missing if that is positive, of any other not at all. |
| MrpAnswers.IncomingOfMoreLines | mrp/internal/service/readiness_service.go:112-131 | Lines add up. |
| MrpAnswers.IncomingOfMoreOrders | mrp/internal/service/readiness_service.go:109-131 | Orders add up. |
| ReadinessService.DeriveReadinessStatus | mrp/internal/service/readiness_service.go:392-403 | Shortage exactly when some requirement is short. |
| ReadinessService.SummarizeDemand | mrp/internal/service/demand_service.go:43-89 | The capped minimum over the requirements, the number of short ones and the priority. |
| ReadinessService.ProductionService.SyncShortages | mrp/internal/service/readiness_service.go:598-664 | The diff-and-apply loop against the snapshot taken at its start leaves the specified tables and announcements, up to the first write that fails. |
| MrpAnswers.RequirementAnswers | mrp/internal/service/readiness_service.go:609-661 | One requirement against an agreeing snapshot: nothing when its log is right; otherwise delete, update, or add last and announce. |
| MrpAnswers.BrokenPass | mrp/internal/service/readiness_service.go:609-661 | A pass that breaks off has reconciled the requirements before the one that stopped it, and no others. |
| ReadinessService.ProductionService.SyncShortage | mrp/internal/service/readiness_service.go:609-661 | One requirement: delete, update, create and announce, or leave alone. |
| MrpAnswers.StopsIff | mrp/internal/service/readiness_service.go:609-661 | A requirement stops a pass exactly when its log is not right and its write fails or would delete for a nil order or part. |
| ReadinessService.ProductionService.UpdateShortageLog | mrp/internal/repository/sqlite/shortages.go:205-217 | The live row with the id gets the quantity; every other row is kept. |
| MrpAnswers.WrittenLogs | mrp/internal/repository/sqlite/shortages.go:205-226 | Row by row: what an update or delete of a log writes. |
| ReadinessService.ProductionService.DeleteShortageLog | mrp/internal/repository/sqlite/shortages.go:219-226 | The live rows of an order and part are marked deleted; nil ids are refused. |
| ReadinessService.ProductionService.PlanProduction | mrp/internal/service/production_service.go:16-88 | Bounds, insert, explosion, reconciliation and status in turn, with what each failure leaves; the logs returned are the order's live ones. |
| MrpAnswers.PlanAnswers | mrp/internal/service/production_service.go:16-88 | Each answer and its exact condition, with the order as it is stored and marked and the logs as they are reconciled. |
| MrpAnswers.PlannableIff | mrp/internal/service/production_service.go:16-34 | A plan is within bounds exactly for a code of 1 to 128 letters, digits, underscores and hyphens and a quantity from 1 to a million. |
| ReadinessService.ProductionService.BuildReadinessRow | mrp/internal/service/readiness_service.go:353-390 | Explosion, status and reconciliation in turn, with what each failure leaves. |
| MrpAnswers.ReadinessAnswers | mrp/internal/service/readiness_service.go:353-390 | Each answer and its exact condition, and that a mark that cannot be written leaves the logs alone. |
| ReadinessService.ProductionService.DeleteProductionOrder | mrp/internal/service/demand_service.go:318-340 | The order goes together with its logs. |
| MrpAnswers.WithoutOrderAppend | mrp/internal/service/demand_service.go:318-340 | The logs that stay are those of other orders, in their order. |
| ReadinessLaws.ExplosionFollowsEntries | mrp/internal/service/readiness_service.go:79-141 | An explosion succeeds exactly when every entry has a positive requirement and a known part with a SKU, and its lines follow the entries one for one. |
| ShortageLaws.SyncSettles | mrp/internal/service/readiness_service.go:598-664 | After a pass that went through, the live logs about the requirements are exactly the short ones with required less available less incoming, one each; all other logs are as before. |
| ShortageLaws.SyncKeepsSound | mrp/internal/service/readiness_service.go:598-664 | At most one live log per order and part is kept by every pass, also one that breaks off. |
| ShortageLaws.SecondSyncDoesNothing | mrp/internal/service/readiness_service.go:598-664 | A second pass with the same requirements writes and announces nothing, so a lost announcement is not made again. |
| ShortageLaws.RetryIsAsGoodAsOnce | mrp/internal/service/readiness_service.go:609-661 | A pass that broke off anywhere followed by one that goes through leaves the same rows, ids and announcements as one undisturbed pass. |
| ShortageLaws.FirstSyncAnnouncesTheShortage | mrp/internal/service/readiness_service.go:637-650 | The first pass for an order announces, of each SKU, exactly what is missing of it. |
| ShortageLaws.WithQtyLive | mrp/internal/repository/sqlite/shortages.go:205-217 | Updating one row changes what is live for its own order and part only. |
| ReadinessLaws.ReadinessMatchesLogs | mrp/internal/service/readiness_service.go:353-390 | After a readiness row the order is short exactly when a component of its bill of materials has a live log. |
| ReadinessLaws.LogsSayWhatIsMissing | mrp/internal/service/readiness_service.go:133-140 | After a readiness row a component has one live log of per-unit times quantity less stock less incoming if that is positive, and none otherwise. |
| ReadinessLaws.PlanMatchesLogsIff | mrp/internal/service/production_service.go:56-72 | After planning has reconciled, status and logs agree exactly unless the explosion finds the order short and its status write fails; logs of other orders and parts are as before. |
| ReadinessLaws.RunStaysHonest | mrp/internal/service/readiness_service.go:353-390 | In every run of planning, readiness rows and removals over fixed bills of materials, in which new ids are fresh and no status or log write or log read fails (announcements may be lost), whatever the supply side answers, an order is short exactly when a component of it has a live log. |
| ReadinessLaws.QtyReadyIsGreatest | mrp/internal/service/demand_service.go:43-65 | The ready quantity is the greatest, up to the ordered one, that the stock on hand can build of every component, for stock figures of any sign. |
| ReadinessLaws.FullyReadyIff | mrp/internal/service/demand_service.go:43-65 | It is the ordered quantity exactly when every requirement is in stock; a short order never is, unless something negative is coming in. |
| ReadinessLaws.TruncatedAtLeast | mrp/internal/service/demand_service.go:56-59 | The truncated quotient reaches n exactly when per-unit times n is available. |
| DemandView.GetAggregatedDemand | mrp/internal/service/demand_service.go:266-316 | Over the explosions of the open orders, each part in demand once, in order of first appearance, with the SKU and stock of its first requirement and all that was asked of it. |
| DemandView.DemandOfOne | mrp/internal/service/demand_service.go:279-296 | One requirement asks, if it is short, for what stock lacks of it. |
| DemandView.DemandsInOrder | mrp/internal/service/demand_service.go:279-307 | Each part is listed with its first requirement in demand, in the order in which the parts first are. |
| DemandView.ShownIsEverything | mrp/internal/service/demand_service.go:279-307 | The quantities shown add up to everything in demand: nothing is lost or counted twice. |
| DemandView.FirstDemandsAreDistinct | mrp/internal/service/demand_service.go:279-307 | No part is listed twice, and each listed requirement is one of those in demand. |
| DemandView.NotListedNotDemanded | mrp/internal/service/demand_service.go:279-307 | A part is listed exactly when something is asked of it. |
| HandoffService.ScmHandoff.GroupByVendor | mrp/internal/service/demand_service.go:135-142 | Shortages are grouped by the best supplier of their SKU in order, or nothing is done if one has none. |
| HandoffAnswers.HandoffNeedsSuppliers | mrp/internal/service/demand_service.go:130-142 | A shortage without a supplier ends the hand-off before anything is done. |
| HandoffService.ScmHandoff.HandLine | mrp/internal/service/demand_service.go:150-166 | Announce, then add the line with its lock; nothing for a requirement that stock covers. |
| HandoffAnswers.LineAnswers | mrp/internal/service/demand_service.go:150-166 | What a line announces, locks and adds, with any faults. |
| HandoffAnswers.OneMoreLine | mrp/internal/service/demand_service.go:150-166 | One more line is handed over only where all before it went through. |
| HandoffService.ScmHandoff.ExecuteHandoff | mrp/internal/service/demand_service.go:130-172 | The vendors are visited in some order, each once, and the state is that of the specified hand-off in that order, up to the first failure. |
| HandoffAnswers.OneMoreVendor | mrp/internal/service/demand_service.go:144-169 | One more vendor has its turn only where all before it went through, with its own shortages. |
| HandoffAnswers.TurnAnswers | mrp/internal/service/demand_service.go:144-149 | A turn is a draft and then its lines; without the draft nothing is announced. |
| HandoffService.ScmHandoff.GeneratePOForDeficits | mrp/internal/service/readiness_service.go:268-300 | The hand-off of exactly the short requirements of the order's explosion. |
| HandoffAnswers.OneMoreShortage | mrp/internal/service/readiness_service.go:268-300 | The shortages handed over are the short requirements, in their order. |
| HandoffLaws.VendorsGoThrough | mrp/internal/service/demand_service.go:144-169 | Undisturbed, the hand-off goes through exactly when no visited vendor is blocked and every ordered SKU has a stock row; it reserves exactly what is ordered, and whether it goes through or stops half-way the units of every SKU in pool, flight and dead letters stay what they were. |
| HandoffLaws.LineGoesThrough | scm/internal/service/po_service.go:190-220 | One line: announced and locked in either case, but without a stock row no line is added. |
| HandoffLaws.HandoffNeverLacksDeficit | mrp/internal/service/demand_service.go:150-166 | With no negative quantity in the pool no hand-off is refused for want of deficit, whatever else fails. |
| HandoffLaws.EachShortageOnOneOrder | mrp/internal/service/demand_service.go:135-169 | Of every SKU the new order of its best supplier has exactly what was asked and every other new order nothing, the reservations grow by it once, and existing orders are untouched. |
| OrderSearch.DraftsAreNotListed | scm/internal/repository/sqlite/po_repo.go:79-92 | The search by model code is a text search over id, target_build and status. New drafts change nothing of what it returns if the table has no target_build column, where it fails, or if neither their ids nor the word Draft contain the code. |
| OrderSearch.DraftsAreListed | scm/internal/repository/sqlite/po_repo.go:79-92 | With the column, a code that the word Draft contains finds every new draft, first on a page of fifteen, pushing older matches off it when it is full. |
| OrderSearch.PageHoldsFifteen | scm/internal/pagination/pagination.go:42-43 | A page holds the first fifteen orders found. |
| OrderSearch.ContainsIff | scm/internal/repository/sqlite/po_repo.go:79-92 | A search text without wildcards finds a text exactly when it stands somewhere in it, in either case. |
| HandoffAftermath.HandoffIsNotCounted | mrp/internal/service/readiness_service.go:72-131 | Exploding an order again after a hand-off, whatever failed in it, gives what it gave before, as the search by model code does not find the drafts. |
| HandoffAftermath.NothingIsIncoming | scm/internal/migration/000014_remove_expected_delivery_and_target_build.up.sql:3-20 | Without the target_build column nothing is ever incoming: a component is short exactly when stock alone does not cover it, and what is asked of it is what its shortage log says. |
| HandoffAftermath.SecondHandoffIsRefused | scm/internal/service/po_service.go:167-188 | Once a hand-off of some shortages went through, every other hand-off of them, with any faults, is refused for a busy vendor before it has done anything. |
| HandoffAftermath.HandedOffOrderStaysShort | mrp/internal/service/readiness_service.go:268-300 | So without the column a handed-off order is found short by the same lines again, and handing it off again is refused with the state unchanged. |
| HandoffAftermath.HandoffOnlyAddsDrafts | mrp/internal/service/demand_service.go:144-169 | However its calls fail, a hand-off only adds drafts, and one that goes through leaves every visited vendor busy. |
| HandoffAftermath.FoundHandoffClearsShortages | mrp/internal/service/readiness_service.go:109-141 | Only with the column, a code inside the word Draft and room on the page: exploding again counts what was ordered, nothing is short unless something negative was incoming, and what was already incoming arrives beyond the requirement. |
| HandoffAftermath.HalfFilledDraftBlocksRetry | mrp/internal/service/demand_service.go:144-166 | A vendor's turn that breaks off after its draft was made leaves the draft, and after every run of procurement calls that leaves it blocking, a later turn of the vendor is turned away unchanged. |
| HandoffAftermath.PlanningAnnouncementStays | mrp/internal/service/demand_service.go:150-166 | Planning announces an order's shortages and the hand-off announces them again to lock them: after both, undisturbed, exactly the planning announcement is left over in pool, flight or dead letters, besides what is reserved. |
| SalesModel.KeyOfStored | sales/internal/repository/valkey/reservations.go:15-34 | Storing the trimmed SKU keeps its counter key. |
| Text.TrimIsTheMiddle | sales/internal/service/order_service.go:44-59 | Trimming takes white space off both ends and no more. |
| Text.UpperAt | sales/internal/repository/valkey/reservations.go:15-34 | Small letters become capitals, character by character, and everything else stays. |

## Left out

- Deficit pool: the five-second timeout, context cancellation, trace headers and the expiry reconciler of the
  reserved queue (not part of this model). Publishing the remainder and dead-lettering are taken to succeed. The
  32-bit counter in the retry header is unbounded here.
- Machine integers: quantities, counters and totals are unbounded, and floating-point rounding of prices, scores and
  rates is not modelled.
- Text: trimming takes the white space of Latin-1, case folding is ASCII; SKUs, codes and ids are compared as text.
- Order of rows the database leaves open (equal unit prices, equal uuids): table order, or the order of the ids.
- VendorCache: time-to-live expiry of cached entries, and the mode in which no cache is configured.
- SalesService: catalogue checks and prices are one answer a SKU; status lookups, lifetime order counts, client
  tiers, published events and the items of a deleted reservation are not modelled. The direct allocation entry
  point, which has no status guard, is not a step of the runs.
- SalesService.SalesBackend.CreateOrder: takes the new order's id as a parameter that is not in use.
- ProcurementService: the variants over the object-relational mapper, `CreatePO`, carriers, listings and metrics. A
  failing read of a record is reported like a missing one. Counting the open receipts of an order, whose errors the
  services ignore, does not fail here. The server wires the purchase-order service without the receipts
  repository; `checksReceipts` covers both.
- Ledger: entries keep SKU, change, running balance, instant and id; transaction type, operator and reference are
  left out. Timestamps of one process increase.
- CatalogService: paging, names and prices of assemblies, the cache of part SKUs, and the catalogue calls for single
  parts.
- MrpModel: resolution status of a log, the mode without a procurement client, the inventory and readiness caches,
  and the fallback SKU for a requirement without one, which an explosion never produces. The bill of materials an
  order reads is a parameter; BomLaws proves what such reads return.
- ReadinessLaws.RunStaysHonest: for bills of materials that stay fixed. A log for a component removed from a bill
  stays live, because a pass only looks at the requirements it is given.
- HandoffLaws.VendorsGoThrough: for undisturbed calls; with faults only the absence of deficit refusals is stated,
  besides what each method leaves. Other calls running between the publication and the lock are excluded.
- OrderSearch: the search over the order table is modelled on values; a hand-off's drafts are taken to be created
  after every order there was, one after another.
- Handing off all open orders repeats the hand-off of one order after another.
- Pick lists, readiness matrix filters, paging, metrics and exports, lookup tables, parts and
  products: they would only add easy members.
- HTTP, authentication, mail, tracing, logging, configuration, migrations and seeding.
