# ShopVerse backend: a verified model

ShopVerse is an online shop. Its backend keeps stock, carts, orders, wallets, loyalty points and refunds in Postgres
tables that many requests, cron jobs, webhooks and queue workers write at the same time. This project models those
transactions in Dafny and proves what they keep over all interleavings of them, early reads included.

A transaction is one atomic step: it takes full effect, or it throws and changes nothing. A statement outside a
transaction is a step of its own, so that whatever was read before it may be stale. Clocks, the payment gateway, Redis
answers, plugin handlers and the choice of rows that `SKIP LOCKED` leaves are inputs. Money is counted in integer minor
units, loyalty totals and durations are reals, tables are finite maps from primary key to row.

Code that updates rows or fields in place is a class with those fields, or a method on one; each such method is proved
to do exactly what a function on table contents says, and the theorems are about those functions and about all runs.

| files | subject |
|---|---|
| `Sums`, `Schema`, `InventoryMoves`, `InventoryService` | tables, inventory movements, sums over unordered tables |
| `Reservations`, `BatchExpiry`, `CartReservationService`, `ReservationCap` | cart reservations, the batched expiry, the Redis gate, the cap |
| `Orders`, `OrdersService`, `Accounting`, `StaleReads` | orders, what every transaction keeps, and after which changes |
| `SupplyLaws`, `StoreMachine`, `StoreAccounts` | all runs of the store, with the reads that precede a transaction as steps |
| `OrderLaws` | when each transaction of the store commits, what it then writes, and that orders leave once |
| `CronLock` | the lease-based cron lock |
| `StripeRefund`, `StripeRefundService`, `RefundRetry` | the two-phase gateway refund and its retry cron |
| `Wallet`, `WalletService`, `WalletLaws`, `WalletReplays`, `OrderEvents` | wallets, the ledger, payouts, replays, event retries |
| `Loyalty` | loyalty points |
| `CircuitBreaker`, `HookRunner`, `RollingStats` | plugin hooks, their breakers and statistics |
| `Routing`, `Shipping` | order routing over warehouses and shipment reservation |
| `Csv`, `CsvFile` | the CSV parser against the CSV printer |

## Results that differ from what the code or its documents say

- `SYSTEM_DESIGN_FINAL.md:90` states I-1 as stock plus reserved equals the cache. The code keeps the cache equal to the
  sums of stock and of reserved separately, and that is what is proved.
- A circuit breaker is documented as counting consecutive failures in a sliding window. The window starts anew when it
  is exceeded, so 2N - 2 failures within one window are needed (and enough, for N >= 2) to be sure of opening it:
  `CircuitBreaker.EnoughFailuresOpen`, `CircuitBreaker.OneFewerIsNotEnough`.
- `cancelOrderItem` and the SHIPPED transition act on an order read before their transaction. The accounts hold along a
  run exactly if every such commit meets its condition: `StoreAccounts.AccountsHoldIff`. Two runs that break them:
  `StaleReads.DoubleCancelTakesAnothersUnit`, `StaleReads.StaleShipTakesAnothersUnit`.
- The refund protocol refunds twice when a database write after an accepted refund is lost, and a failure mark that is
  late can hide a completed refund: `StripeRefund.LostWriteRefundsTwice`, `StripeRefund.LateMarkHidesRefund`. When it
  does not is `StripeRefund.AcceptedRefundIsRecordedIff`. A request upsert that throws after the claim leaves the order
  in CANCELLING for good, unless a webhook moves it: `StripeRefund.ThrowingUpsertStrandsOrder`.
- The cron lock excludes others exactly while bodies finish before their lease ends: `CronLock.ExclusionLostIff`.
- A tick of the refund cron that picks no row returns before it marks exhausted rows:
  `RefundRetry.TickMarksExhaustedIff`.
- A row that the manual path completes after the refund cron has picked it is sent to the gateway once more:
  `RefundRetry.SettledRowIsLeftAlone`, `RefundRetry.StalePickCallsAgain`.
- Replaying a recorded wallet credit may throw instead of returning the record, when the cap guard fires first:
  `WalletReplays.ReplayReturnsRecordIff`. Payout runs that overlap pay twice: `WalletReplays.OverlappingRunsPayTwice`.
- The limit of three live reservations can be passed by requests that arrive at once: `ReservationCap.AtOnceExceedIff`.
- A gate that rejects a later line of a cart keeps the tokens of the lines before it, although the cart gets no
  reservation: `CartReservationService.CreateReservation`, `CartReservationService.SecondLineStops`.
- A guest order that lists one variant more than once can be routed although its shipments cannot be reserved:
  `Shipping.RoutedOrderShipsIff`, `Shipping.RepeatedVariantOverbooks`.
- The upload splits its text into lines before it looks at quotes, and trims every cell, so not every exported file
  comes back: `CsvFile.FileRoundTripIff`, `CsvFile.PaddedCellIsChanged`. The revenue export is always refused:
  `CsvFile.RevenueExportIsRefused`.

## Model

| member | source | states |
|---|---|---|
| InventoryMoves.MoveKeepsSound | backend/src/inventory/inventory.service.ts:96-113 | A change of one inventory row together with the same change of the Variant cache keeps 0 <= reserved <= stock, the foreign key, and the cache equal to the sums over all warehouses |
| InventoryMoves.ReserveLineIsMove | backend/src/cart/cart-reservation.service.ts:225-297 | A conditional reserve of one line succeeds exactly if the variant exists and the sellable units suffice, and then only adds to reserved, row and cache alike |
| InventoryMoves.BackorderIsMove | backend/src/inventory/inventory.service.ts:73-94 | A backorder reserve fails only for non-positive quantities and unknown variants, and grows stock and reserved in lockstep |
| InventoryMoves.RestockIsMove | backend/src/inventory/inventory.service.ts:178-193 | A restock adds to stock, row and cache alike, and ignores non-positive quantities |
| InventoryMoves.ReleaseIsMove | backend/src/inventory/inventory.service.ts:117-141 | Giving back no more than is reserved never meets a GREATEST(0, ...) clamp, neither on the row nor on the cache |
| InventoryMoves.CommitIsMove | backend/src/inventory/inventory.service.ts:148-175 | A shipment of held units leaves stock and reserved together and counts as sold; it throws exactly if fewer are held |
| InventoryMoves.CacheWithinBounds | backend/src/inventory/inventory.service.ts:109-113 | The cache obeys its own CHECK constraints whenever the rows obey theirs |
| InventoryMoves.ReserveLinesCorrect | backend/src/cart/cart-reservation.service.ts:224-320 | The reserve loop succeeds exactly if, per variant, all lines together fit the sellable units; it then holds exactly those units |
| InventoryMoves.ReleaseHoldsCorrect | backend/src/cart/cart-reservation.service.ts:442-453 | Releasing covered lines gives back exactly their units at every row and cache column, without a clamp changing a result |
| InventoryMoves.ReleaseLinesIsReleaseHolds | backend/src/orders/orders.service.ts:527-529 | The release loop of an order does what the release loop of a reservation does |
| InventoryMoves.CommitLinesCorrect | backend/src/orders/orders.service.ts:790-797 | The shipment loop succeeds exactly if all lines together are reserved, and moves exactly those units out |
| InventoryService.Reserve | backend/src/inventory/inventory.service.ts:67-114 | The statements of reserve, plain and backorder, take the tables where the movement function says, or throw |
| InventoryService.Release | backend/src/inventory/inventory.service.ts:117-141 | The statements of release, with clamps, do what the movement function says, and nothing if there is no row |
| InventoryService.CommitShipment | backend/src/inventory/inventory.service.ts:148-175 | The statements of commitShipment do what the movement function says, or throw |
| InventoryService.Restock | backend/src/inventory/inventory.service.ts:178-193 | The statements of restock do what the movement function says |
| BatchExpiry.BatchIsSerial | backend/src/cart/cart-reservation.service.ts:611-641 | The single expiry statement (flip, group by warehouse and variant, regroup by variant, one clamped subtraction each) ends in the same tables as releasing the same reservations one by one in any order, clamps included |
| BatchExpiry.GroupByKeepsTotals | backend/src/cart/cart-reservation.service.ts:618-628 | Grouping keeps keys distinct, loses none, and keeps every sum over a class of keys |
| CartReservationService.ReserveGate.TryReserve | backend/src/common/redis.service.ts:211-237 | The gate answers yes, no or nothing; an answer is yes exactly if the counter has the tokens; only its own counter changes, by the tokens taken on yes, and never without an answer from a reliable gate |
| CartReservationService.ReserveGate.Release | backend/src/common/redis.service.ts:243-259 | Tokens come back only to a key that exists; no key appears, and no other counter changes |
| CartReservationService.ReserveGate.Init | backend/src/common/redis.service.ts:262-275 | A gate is filled only if it is absent; an existing counter stays |
| CartReservationService.CreateReservation | backend/src/cart/cart-reservation.service.ts:212-323 | For arbitrary gate answers a created reservation is the one Postgres alone would have created, a refused one leaves the database unchanged, and whatever Postgres refuses is refused: the gate can never oversell. With a reliable gate the verdict and all counters follow from the counters and tables before, a cold counter counting as the sellable units; a gate that is not behind Postgres changes no verdict and moves in step with it; the tokens balance exactly if no line after the first is turned away |
| CartReservationService.ExpectedIsUnique | backend/src/cart/cart-reservation.service.ts:224-297 | Counters and tables determine one verdict: created, or the one line at which the gate or Postgres stops |
| CartReservationService.NotBehindIsThrough | backend/src/cart/cart-reservation.service.ts:247-272 | A gate whose counters are cold or at least the sellable units turns nobody away whom Postgres would serve |
| CartReservationService.GateMovesInStep | backend/src/cart/cart-reservation.service.ts:247-297 | After a created reservation each counter is as far from the sellable units as before; one that was cold equals them |
| CartReservationService.SecondLineStops | backend/src/cart/cart-reservation.service.ts:225-246 | Two lines with stock for both, tokens for the first only: the gate stops at the second |
| CartReservationService.Consume | backend/src/cart/cart-reservation.service.ts:401-414 | Only an ACTIVE reservation can be consumed |
| CartReservationService.ReleaseById | backend/src/cart/cart-reservation.service.ts:420-455 | With other requests between its read and its transaction, it gives units back exactly if it is the one that flips ACTIVE to EXPIRED |
| CartReservationService.ExpireOldReservations | backend/src/cart/cart-reservation.service.ts:573-647 | A run leaves no unlocked overdue reservation ACTIVE unless it met the batch limit, and equals the serial release of its rows in any order |
| ReservationCap.EnforceConcurrentCap | backend/src/cart/cart-reservation.service.ts:483-497 | Whatever other requests do meanwhile, no reservation it set out to end is still ACTIVE, except one whose release failed, which is swallowed |
| ReservationCap.CapKeepsTheNewest | backend/src/cart/cart-reservation.service.ts:489-496 | Run alone it keeps exactly the newest live reservations, at most two, and touches no others |
| ReservationCap.AtOnceExceedIff | backend/src/cart/cart-reservation.service.ts:165-215 | n requests that pass the cap before the first creates end with min(live, 2) + n live reservations, and exceed the limit exactly if that is more than three; a single one never does |
| OrdersService.PlaceOrder | backend/src/orders/orders.service.ts:290-354 | The checkout transaction consumes the reservation and stores the order, or rolls everything back |
| OrdersService.PlaceGuestOrder | backend/src/orders/orders.service.ts:699-735 | The guest transaction reserves every line and stores the order, or rolls everything back |
| OrdersService.CancelOrder | backend/src/orders/orders.service.ts:513-535 | The cancellation releases the uncancelled items of the caller's PENDING or CONFIRMED order and cancels it, or throws; `OrderLaws.CancelsIff` pins when |
| OrdersService.CancelOrderItem | backend/src/orders/orders.service.ts:869-912 | The item cancellation acts on the order as read before the transaction, and otherwise throws |
| OrdersService.ShipOrder | backend/src/orders/orders.service.ts:770-811 | The SHIPPED transition commits the uncancelled items as read before the transaction, or rolls back |
| Accounting.CreateReservationKeeps | backend/src/cart/cart-reservation.service.ts:212-323 | Creating a reservation keeps the accounts (reserved equals what active reservations and pre-shipment orders hold) and the units on hand plus sold |
| Accounting.PlaceOrderKeeps | backend/src/orders/orders.service.ts:290-312 | Placing an order hands the hold over from the reservation to the order |
| Accounting.CommitReleaseKeeps | backend/src/cart/cart-reservation.service.ts:436-455 | A release keeps the accounts and meets no clamp |
| Accounting.BatchExpireKeeps | backend/src/cart/cart-reservation.service.ts:611-641 | The batched expiry keeps the accounts |
| Accounting.BatchMeetsNoClamp | backend/src/cart/cart-reservation.service.ts:629-641 | Both GREATEST arguments of the batched statement are non-negative, for every grouped row and variant |
| Accounting.PlaceGuestOrderKeeps | backend/src/orders/orders.service.ts:699-720 | A guest order keeps the accounts, backordered lines included |
| Accounting.CancelOrderKeeps | backend/src/orders/orders.service.ts:513-535 | Cancelling an order keeps the accounts and meets no clamp |
| Accounting.ShipOrderKeeps | backend/src/orders/orders.service.ts:783-798 | Shipping a pre-shipment order that is unchanged since its read never throws and keeps the accounts |
| Accounting.CancelItemKeeps | backend/src/orders/orders.service.ts:886-909 | Cancelling an item of an order unchanged since its read keeps the accounts and meets no clamp |
| Accounting.RestockKeeps | backend/src/inventory/inventory.service.ts:178-193 | A restock keeps the accounts and adds exactly its units to those on hand plus sold |
| Accounting.SetStatusKeeps | backend/src/orders/orders.service.ts:799-802 | A move among PENDING, CONFIRMED and PROCESSING keeps the accounts |
| StoreMachine.RunConsistent | backend/src/orders/orders.service.ts:290-354 | In every run, with any number of callers between read and commit: CHECK constraints hold, what was read of a reservation is still so, an order that was read has only moved on, and the log agrees with every status |
| StoreAccounts.ChecksNeverThrow | backend/src/inventory/inventory.service.ts:96-175 | While the accounts hold, no transaction, on whatever stale read, violates a CHECK constraint |
| StoreAccounts.StepAccountedIff | backend/src/orders/orders.service.ts:770-909 | A step keeps the accounts exactly if it is not a stale commit whose order no longer holds what it takes |
| StoreAccounts.AccountsHoldIff | backend/src/orders/orders.service.ts:770-909 | From an empty shop, the accounts hold in every state of a run exactly if each of its item cancellations and shipments meets that condition when it commits |
| StoreAccounts.ReachableInventory | backend/src/common/invariant-validator.service.ts:106-172 | In every state reached by such a run, reserved at DEFAULT equals active reservations plus pre-shipment orders per variant, 0 <= reserved <= stock, and the cache equals the sums over warehouses |
| StoreAccounts.PlacedOrdersCanShip | backend/src/orders/orders.service.ts:783-798 | In every such state every pre-shipment order can be shipped as it is: commitShipment never takes its failure branch |
| StoreMachine.SupplyIsConserved | backend/src/inventory/inventory.service.ts:148-193 | Over any run, stale commits included, units on hand plus units sold change by exactly what was restocked and backordered |
| StoreMachine.ReservationsLeaveOnce | backend/src/cart/cart-reservation.service.ts:401-455 | Over any run, stale commits included, a reservation leaves ACTIVE at most once, is never both consumed and released, is released at most once, and backs at most one order |
| StoreAccounts.ClampsAreNeverMet | backend/src/inventory/inventory.service.ts:124-140 | In no state reached with fitting commits does a GREATEST(0, ...) clamp change a result, the batched expiry included; a stale item cancellation is excepted when its item is no longer held |
| OrderLaws.OrderStatusLaw | backend/src/orders/orders.service.ts:513-909 | In every run, stale reads included, a step changes only the order it names, from a status that its kind allows to the one it prescribes: PENDING or CONFIRMED to CANCELLED, SHIPPED, what was read, or CANCELLED after the last item; new orders are PENDING |
| OrderLaws.CancelsIff | backend/src/orders/orders.service.ts:513-535 | In every run a cancellation takes effect exactly if the order is the caller's and PENDING or CONFIRMED; it leaves it CANCELLED and all else alone |
| OrderLaws.CancelledUnitsReturn | backend/src/orders/orders.service.ts:523-529 | While the accounts hold, a cancellation gives back exactly what the order holds, per variant |
| OrderLaws.ItemCancelsIff | backend/src/orders/orders.service.ts:869-909 | On a current read an item is cancelled exactly if it is the caller's, not cancelled, and the order has not shipped; its units come back, and the last item takes the order with it |
| OrderLaws.CurrentReadShips | backend/src/orders/orders.service.ts:770-811 | A shipment on a current read always commits; the order's units leave stock and reserved together and count as sold |
| OrderLaws.ShipmentGoesThrough | backend/src/orders/orders.service.ts:770-811 | While the accounts hold, any pre-shipment order can be shipped at any time |
| OrderLaws.MovesIff | backend/src/orders/orders.service.ts:799-802 | A status update within one class is made exactly if the order exists |
| OrderLaws.RestocksIff | backend/src/inventory/inventory.service.ts:178-193 | In every run a positive restock of a known variant is on the shelf and sellable afterwards, and no other restock changes anything |
| OrderLaws.ReservesIff | backend/src/cart/cart-reservation.service.ts:212-323 | While the accounts hold, a reservation is created exactly if the cart is not empty, positive, of known variants, and fits per variant the stock less all that is held; it is ACTIVE, of its user, for its cart |
| OrderLaws.CheckoutGoesThroughIff | backend/src/cart/cart-reservation.service.ts:330-414 | In every run the owner of an ACTIVE reservation can check it out exactly until it expires |
| OrderLaws.ChecksOutIff | backend/src/orders/orders.service.ts:290-354 | In every run a checkout commits exactly if its reservation is still ACTIVE; the PENDING order has the owner and the items of the reservation |
| OrderLaws.ConsumedIsBought | backend/src/orders/orders.service.ts:290-354 | In every state of every run a consumed reservation backs an order of its own user for its own items |
| OrderLaws.ReleasesIff | backend/src/cart/cart-reservation.service.ts:436-455 | In every run a release flips to EXPIRED exactly if the reservation is still ACTIVE |
| OrderLaws.SelectedExpire | backend/src/cart/cart-reservation.service.ts:611-641 | The expiry cron ends exactly the reservations it selected |
| OrderLaws.GuestChecksOutIff | backend/src/orders/orders.service.ts:699-735 | While the accounts hold, a guest order is placed exactly if its items are real and, per variant, those not backordered fit the stock less all that is held |
| OrderLaws.OrdersLeaveOnce | backend/src/orders/orders.service.ts:770-909 | Along a run whose stale commits fit, an order that has shipped or been cancelled never holds a unit again |
| OrderLaws.SecondShipmentMovesNothing | backend/src/orders/orders.service.ts:783-798 | In such a run a second shipment of an order moves no unit |
| StaleReads.CancelItemAfterChange | backend/src/orders/orders.service.ts:869-909 | Cancelling an item on a stale read keeps the accounts exactly if the item is still held, or its write is harmless |
| StaleReads.ShipAfterChange | backend/src/orders/orders.service.ts:770-811 | Shipping on a stale read keeps the accounts exactly if the order still holds what was read |
| StaleReads.StatusWriteKeepsAccountsIff | backend/src/admin/admin.service.ts:367-372 | A bare status update keeps the accounts exactly if it does not cross between holding and other statuses, or the order holds nothing |
| StaleReads.DoubleCancelTakesAnothersUnit | backend/src/orders/orders.service.ts:869-909 | Two concurrent cancellations of one item release a unit that another user's reservation holds |
| StaleReads.StaleShipTakesAnothersUnit | backend/src/orders/orders.service.ts:770-811 | A shipment that read its order before an item was cancelled takes a unit that another user's reservation holds |
| CronLock.CronLockService.Acquire | backend/src/common/cron-lock.service.ts:31-57 | It succeeds exactly if the name was free when the insert ran, or taken when the takeover ran by a lease that had expired at the time read first; it then owns the row, and otherwise changes nothing |
| CronLock.AcquiresIff | backend/src/common/cron-lock.service.ts:31-57 | The same of a call in any run, with any steps of other calls between its two statements |
| CronLock.ReleasedLockIsTaken | backend/src/common/cron-lock.service.ts:60-86 | In a timely run a call that is done frees the name, and the next call to try gets it at once |
| CronLock.CronLockService.Release | backend/src/common/cron-lock.service.ts:60-64 | It removes the row only if this process holds it |
| CronLock.MutualExclusion | backend/src/common/cron-lock.service.ts:67-86 | If every body finishes and is released by its own lease's end, no two bodies of one lock name overlap, in any interleaving of the two-step acquire |
| CronLock.ExclusionLostIff | backend/src/common/cron-lock.service.ts:50-56 | A step puts two bodies in the lock exactly if it takes over a lease whose body has outlived it |
| CronLock.OneTickLateOverlaps | backend/src/common/cron-lock.service.ts:52-56 | A body one tick beyond its lease overlaps with the next |
| StripeRefund.RefundsAreBounded | backend/src/payments/payments.service.ts:602-695 | With any number of callers and webhook deliveries, at most one is past its claim, and the gateway refunds at most once more than writes after a refund were lost |
| StripeRefund.FailedAttemptRestores | backend/src/payments/payments.service.ts:678-684 | A failed attempt restores the status it claimed from, unless the webhook set REFUNDED meanwhile |
| StripeRefund.ClaimedOrderIsClosed | backend/src/payments/payments.service.ts:610-626 | In every run, while a caller is past its claim, and after an accepted refund whose writes are not lost, nobody else can claim the order or begin to |
| StripeRefund.LostWriteRefundsTwice | backend/src/payments/payments.service.ts:661-684 | One lost write after an accepted refund lets a retry refund again |
| StripeRefund.AcceptedRefundIsRecordedIff | backend/src/payments/payments.service.ts:661-691 | A refund whose caller completes ends as COMPLETED, once no caller is left, exactly if no failed caller had yet to mark the request when it completed |
| StripeRefund.LateMarkHidesRefund | backend/src/payments/payments.service.ts:681-691 | Otherwise a completed refund ends as FAILED: an input |
| StripeRefund.ThrowingUpsertStrandsOrder | backend/src/payments/payments.service.ts:632-641 | After a request upsert that throws, in every later run no caller claims the order or reaches the gateway |
| StripeRefund.OpenOrderIff | backend/src/payments/payments.service.ts:606-626 | In every run from a paid order in which no upsert throws, a new call passes the checks exactly if the order is not settled, no refund stands and no caller is past its claim |
| StripeRefund.AcceptedAttempt | backend/src/payments/payments.service.ts:628-675 | Whatever others do in between, a claimant whose refund is accepted and written makes one refund, counts the attempt, and leaves the request COMPLETED and the order closed |
| StripeRefund.RefusedAttempt | backend/src/payments/payments.service.ts:676-691 | A refused claimant makes none, leaves the request FAILED, and puts the order back, unless a delivery made it REFUNDED |
| StripeRefund.DeliverySettles | backend/src/payments/payments.service.ts:533-563 | In every run a delivery for an order with a payment makes status and payment status REFUNDED for good; a second one changes nothing, and nobody can claim the order |
| StripeRefund.AcceptedRefundSettles | backend/src/payments/payments.service.ts:533-695 | Once a refund was accepted and none of its writes is lost, its delivery settles the order wherever it falls among the callers' steps, and nothing more is refunded |
| StripeRefundService.RefundStripePayment | backend/src/payments/payments.service.ts:602-695 | One call, with anything between its statements, is a run of the machine; whether the upsert throws, what the gateway answers and how many later writes succeed determine its own steps and result |
| StripeRefundService.PaymentTables.ChargeRefunded | backend/src/payments/payments.service.ts:533-563 | The delivery is the webhook step of the machine, whose effect `StripeRefund.DeliverySettles` states |
| RefundRetry.RefundTable.RetryOne | backend/src/payments/refund-retry.service.ts:95-168 | One attempt, with manual steps between the gateway call and its writes, is two steps of the machine: it writes an absolute count and the status, and calls the gateway only for an order with a payment |
| RefundRetry.RefundTable.RunOnce | backend/src/payments/refund-retry.service.ts:62-93 | A tick with manual steps between any two of its statements is the run of its steps: pick, one attempt per row, mark; it returns early when it picks none |
| RefundRetry.QuietTickIsTick | backend/src/payments/refund-retry.service.ts:62-93 | The steps of a tick that nobody interrupts amount to the whole-tick function |
| RefundRetry.TickMakesProgress | backend/src/payments/refund-retry.service.ts:62-93 | A tick lowers the remaining attempts over all rows by at least the number of attempts that were written: k for k picked rows if no write fails |
| RefundRetry.TickMarksExhaustedIff | backend/src/payments/refund-retry.service.ts:79-91 | No exhausted row stays PROCESSING after a tick exactly if the tick picked a row or there was none |
| RefundRetry.LastRefusalFails | backend/src/payments/refund-retry.service.ts:79-168 | A picked row whose fifth attempt is refused is FAILED by the end of that tick |
| RefundRetry.TickSettlesRow | backend/src/payments/refund-retry.service.ts:95-168 | A tick makes a picked row COMPLETED exactly if an accepted refund was written, FAILED if its order has no payment or a fifth attempt was refused, and else leaves it PROCESSING with one attempt more |
| RefundRetry.RetriedIff | backend/src/payments/refund-retry.service.ts:62-93 | With room in the batch, a tick uses up an attempt of exactly the PROCESSING refunds to the original payment with fewer than five attempts that were untouched for an hour |
| RefundRetry.SettledRowIsLeftAlone | backend/src/payments/refund-retry.service.ts:62-168 | Over any run, a row that is no longer PROCESSING is never sent to the gateway again unless a manual step reopens it, except once if the running tick had picked it |
| RefundRetry.AcceptedIsFinal | backend/src/payments/refund-retry.service.ts:113-144 | Over any run, an accepted refund that was written stays COMPLETED and is never called for again, unless reopened by hand |
| RefundRetry.StalePickCallsAgain | backend/src/payments/refund-retry.service.ts:62-93 | The exception: a row completed by hand after the pick is sent to the gateway once more |
| RefundRetry.OnlyPayableAreCalled | backend/src/payments/refund-retry.service.ts:95-125 | Over any run the cron calls the gateway only for refunds to the original payment of orders that have one |
| RefundRetry.CronCallsBounded | backend/src/payments/refund-retry.service.ts:95-209 | Over any run of statements, manual retries inside ticks and crashes included, the cron calls the gateway for a row at most five times plus once per attempt that was never written |
| Wallet.ReachableBooksAreSound | backend/src/wallet/wallet.service.ts:47-163 | Over any run of credits, debits, item refunds and payouts: every balance is non-negative and the signed sum of its rows, balanceAfter is the running sum, keys are unique, and the sum of balances is WALLET_CREDIT less WALLET_DEBIT plus COMMISSION_PAYOUT |
| WalletLaws.RowsAgree | backend/src/wallet/wallet.service.ts:47-163 | In every run each balance is the signed sum of the user's rows, and not negative |
| WalletLaws.CreditLandsIff | backend/src/wallet/wallet.service.ts:47-100 | A credit posts row, ledger entry and balance exactly if its reference is new for the user and the new sum is within the cap; a user without a wallet gets one |
| WalletLaws.DebitLandsIff | backend/src/wallet/wallet.service.ts:106-163 | A debit posts exactly if the user has a wallet whose rows cover it and its reference is new |
| WalletLaws.RefundLandsIff | backend/src/orders/orders.service.ts:918-1004 | An item refund posts price times quantity exactly if the item is of the order, owned, priced, not refunded, and its reference is new |
| WalletLaws.PayoutLandsIff | backend/src/affiliate/affiliate.service.ts:137-171 | A payout posts what was pending when read exactly if that is positive and its reference is new |
| WalletLaws.CreditTells | backend/src/wallet/wallet.service.ts:56-99 | The caller of a credit gets the row, new or recorded, or the reason why there is none |
| Wallet.CreditKeepsSound | backend/src/wallet/wallet.service.ts:47-100 | A credit keeps all of this for any amount, accepted or not |
| Wallet.DebitKeepsSound | backend/src/wallet/wallet.service.ts:106-163 | A debit keeps all of this for any amount, accepted or not |
| Wallet.RefundKeepsSound | backend/src/orders/orders.service.ts:918-1004 | An item refund keeps all of this, and a refunded item always has its one wallet row over price times quantity |
| Wallet.PayoutKeepsSound | backend/src/affiliate/affiliate.service.ts:137-171 | A payout keeps all of this, stale reads included, and what affiliates were paid is what the ledger paid them |
| WalletService.Credit | backend/src/wallet/wallet.service.ts:47-100 | The statements of credit, with cap, unique index and rollback, do what the function on table contents says |
| WalletService.Debit | backend/src/wallet/wallet.service.ts:106-163 | The statements of debit, with conditional decrement, unique index and rollback, do what the function says |
| WalletService.Withdraw | backend/src/wallet/wallet.service.ts:166-173 | A withdrawal is a debit under a reference of its own |
| WalletService.RefundToWallet | backend/src/wallet/wallet.service.ts:176-183 | An order is refunded to the wallet at most once, however often it is called |
| WalletService.RefundOrderItem | backend/src/orders/orders.service.ts:918-1004 | The statements of an item refund do what the function says, or roll back |
| WalletService.ProcessPendingPayouts | backend/src/affiliate/affiliate.service.ts:123-177 | With other requests before each turn, a run keeps the books sound and reports what it paid; it throws only at a reference already recorded; unless a second run interferes, each paid account got what was pending when it was read and no other account was paid |
| WalletService.Perform | backend/src/wallet/wallet.service.ts:47-163 | Every step of the wallet machine is one of these transactions |
| WalletReplays.ReplayReturnsRecordIff | backend/src/wallet/wallet.service.ts:83-99 | A replay of a recorded movement changes nothing, and returns the record exactly if no guard fires first |
| WalletReplays.ReplaysAreNoise | backend/src/wallet/wallet.service.ts:83-99 | Once a movement is recorded, all its replays can be struck from any later run |
| WalletReplays.AcceptedOnceIsEnough | backend/src/wallet/wallet.service.ts:47-163 | An accepted movement makes its later duplicates superfluous, whatever runs before and in between |
| WalletReplays.TraceWithoutReplays | backend/src/wallet/wallet.service.ts:47-163 | Any run equals the run without every movement that was already recorded when it came |
| WalletReplays.RetryOfRefusedCounts | backend/src/wallet/wallet.service.ts:58-62 | A credit that the cap refused is not a duplicate: it goes through after a debit |
| WalletReplays.WalletServiceKeepsCap | backend/src/wallet/wallet.service.ts:56-62 | With WalletService steps alone no balance exceeds the cap |
| WalletReplays.OtherWritersIgnoreCap | backend/src/orders/orders.service.ts:967-971 | An item refund or a payout keeps the cap exactly if there was room for it |
| WalletReplays.CurrentPayoutsNeverOverpay | backend/src/affiliate/affiliate.service.ts:131-171 | If payouts see accounts as they are, nobody is ever paid more than earned |
| WalletReplays.OverlappingRunsPayTwice | backend/src/affiliate/affiliate.service.ts:123-171 | Two overlapping payout runs pay a pending commission twice |
| OrderEvents.Process | backend/src/common/event-bus.processor.ts:102-116 | One attempt runs the handlers in order up to the first that throws, and reports whether one did |
| OrderEvents.CashbackAtMostOnce | backend/src/wallet/order-cashback.subscriber.ts:52-89 | Under every failure schedule an order's cashback is credited at most once, and its first record stays |
| OrderEvents.CashbackIsCreditedIff | backend/src/wallet/order-cashback.subscriber.ts:52-89 | In an attempt that reaches it, the handler credits exactly the looked-up cashback to the user exactly if there is a coupon, the cashback is positive, not yet credited, and fits the cap |
| OrderEvents.CashbackOutlives | backend/src/wallet/order-cashback.subscriber.ts:74-79 | The row outlives whatever later handlers and attempts do |
| OrderEvents.RetriesCreditNothing | backend/src/wallet/order-cashback.subscriber.ts:74-79 | Once an attempt has credited the cashback, retries end as if the cashback handler were not there |
| OrderEvents.GuestsGetNoCashback | backend/src/wallet/order-cashback.subscriber.ts:57-58 | A guest's order credits nobody |
| Loyalty.LoyaltyService.EarnPoints | backend/src/loyalty/loyalty.service.ts:39-70 | The statements of earnPoints do what the function on contents says |
| Loyalty.LoyaltyService.RedeemPoints | backend/src/loyalty/loyalty.service.ts:77-118 | The statements of redeemPoints, with both guards, do what the function says |
| Loyalty.LoyaltyService.ClawbackPoints | backend/src/loyalty/loyalty.service.ts:125-160 | The statements of clawbackPoints, with the clamp, do what the function says |
| Loyalty.LoyaltyService.Bonus | backend/src/loyalty/loyalty.service.ts:162-186 | The statements of addBonus do what the function says |
| Loyalty.PointsAreReflectedSums | backend/src/loyalty/loyalty.service.ts:39-186 | Starting from zero, a user's points are S_t less the least S_s over all s up to t, and never negative |
| Loyalty.OneEarnOneClawback | backend/src/loyalty/loyalty.service.ts:42-51 | An order has at most one earn and at most one clawback, and the clawback equals the earn of the same user |
| Loyalty.EarnsIff | backend/src/loyalty/loyalty.service.ts:39-70 | In every run an order earns the whole part of a tenth of its total exactly if that is at least one point, the user exists and it has not earned before |
| Loyalty.RedeemsIff | backend/src/loyalty/loyalty.service.ts:77-118 | In every run points are redeemed for half a rupee each exactly if the user has them and the discount is at most a fifth of a known subtotal |
| Loyalty.ClawsBackIff | backend/src/loyalty/loyalty.service.ts:125-160 | In every run an order's points are taken back exactly if it earned and they were not taken back before |
| Loyalty.GrantsIff | backend/src/loyalty/loyalty.service.ts:162-186 | A bonus is granted exactly if its reference is new, the user exists and points stay non-negative |
| Loyalty.ClawbackForgivesWhatWasSpent | backend/src/loyalty/loyalty.service.ts:145-149 | A clawback takes what is left, and moves the floor by exactly what had already been spent |
| CircuitBreaker.CircuitBreaker.GetState | backend/src/common/circuit-breaker.ts:65-74 | Looking at an open breaker makes it half-open once the cooldown is over, and otherwise changes nothing |
| CircuitBreaker.CircuitBreaker.RecordFailure | backend/src/common/circuit-breaker.ts:100-128 | The assignments of recordFailure take the breaker where the function on its contents says |
| CircuitBreaker.CircuitBreaker.RecordSuccess | backend/src/common/circuit-breaker.ts:89-98 | The assignments of recordSuccess take the breaker where the function says |
| CircuitBreaker.ClosedCountsARun | backend/src/common/circuit-breaker.ts:112-127 | In every history a closed breaker counts a run of the latest failures inside one window, below the threshold |
| CircuitBreaker.OpensOnlyOnABurst | backend/src/common/circuit-breaker.ts:124-127 | A closed breaker opens on a failure only if the last N outcomes were failures spanning at most the window |
| CircuitBreaker.EnoughFailuresOpen | backend/src/common/circuit-breaker.ts:112-127 | N failures (N <= 2) or 2N - 2 failures (N > 2) in a row within the window leave any breaker open |
| CircuitBreaker.OneFewerIsNotEnough | backend/src/common/circuit-breaker.ts:113-122 | 2N - 3 failures in a row within the window can leave it closed |
| CircuitBreaker.OpenUntilCooldown | backend/src/common/circuit-breaker.ts:65-87 | An open breaker refuses calls exactly until the cooldown is over, however often it is asked |
| CircuitBreaker.TrialDecides | backend/src/common/circuit-breaker.ts:65-128 | After the cooldown the next outcome decides: a success makes the breaker as good as new, a failure opens it for another cooldown |
| CircuitBreaker.SuccessForgets | backend/src/common/circuit-breaker.ts:89-98 | After a success of a breaker that is not open, every later sequence of events shows the states of a new breaker |
| HookRunner.HookRunner.Register | backend/src/common/hook-runner.service.ts:88-105 | A plugin has one entry per hook; registering again replaces it in place with a new closed breaker |
| HookRunner.HookRunner.UnregisterPlugin | backend/src/common/hook-runner.service.ts:111-117 | Every hook loses exactly the handlers of the plugin, and hooks without handlers disappear |
| HookRunner.HookRunner.RunSync | backend/src/common/hook-runner.service.ts:175-291 | One call changes the breakers of this hook and reports outcomes as the function over its handlers says |
| HookRunner.OutcomesFollowHandlers | backend/src/common/hook-runner.service.ts:188-290 | Outcomes line up with a prefix of the handlers that ends early only at the first rejection; disabled or open handlers, and only those, are not invoked; unvisited handlers are untouched |
| HookRunner.HandlerIsCalledIff | backend/src/common/hook-runner.service.ts:188-290 | A handler is reached exactly if none before it rejected, called exactly if it is enabled and not within the cooldown of an opening, and reported with its own outcome |
| HookRunner.OpenBreakerWaits | backend/src/common/hook-runner.service.ts:199-207 | Once a call leaves a breaker open, its handler is not invoked again until the cooldown is over |
| HookRunner.TrialsAreSpaced | backend/src/common/hook-runner.service.ts:199-250 | While a handler keeps failing, its k-th later trial ends at least k cooldowns after the breaker opened |
| RollingStats.RollingStats.Record | backend/src/common/plugin-metrics.service.ts:42-46 | Recording appends and drops the oldest entry beyond the cap |
| RollingStats.RollingStats.P95 | backend/src/common/plugin-metrics.service.ts:59-65 | The result is a duration of the buffer that fewer than 5% exceed and at most 95% fall below, or nothing for an empty buffer |
| RollingStats.RollingStats.LastFailureMs | backend/src/common/plugin-metrics.service.ts:67-73 | The result is the time of the latest failure in the buffer, or nothing if there is none |
| RollingStats.ReadSeesTheWindow | backend/src/common/plugin-metrics.service.ts:39-57 | At any read the lazily pruned buffer is exactly the last 200 records ever made, filtered to the window |
| RollingStats.P95IsUnique | backend/src/common/plugin-metrics.service.ts:62-64 | Only one value meets the two bounds of p95 |
| Routing.RouteOrder | backend/src/warehouse/warehouse.service.ts:88-156 | The loops compute the first warehouse that has everything, else the greedy split grouped by warehouse |
| Routing.RouteFailsIff | backend/src/warehouse/warehouse.service.ts:108-149 | Routing throws exactly if some item exceeds the total positive availability, and names the first such item |
| Routing.TakesAddUp | backend/src/warehouse/warehouse.service.ts:130-144 | The takes of an item add up to it as far as stock allows, each between 1 and its warehouse's availability |
| Routing.SingleIsFirst | backend/src/warehouse/warehouse.service.ts:108-124 | A single shipment comes from the first active warehouse that has every item |
| Routing.TakesAreGreedy | backend/src/warehouse/warehouse.service.ts:131-144 | Before a warehouse gives anything, every earlier one has given all it can sell |
| Routing.TakesAreApart | backend/src/warehouse/warehouse.service.ts:131-144 | No warehouse gives twice to the same item |
| Routing.GroupedByWarehouse | backend/src/warehouse/warehouse.service.ts:127-156 | A split order has one shipment per warehouse, which takes exactly what the loop took there, in order |
| Shipping.CreateShipment | backend/src/warehouse/warehouse.service.ts:158-187 | The shipment transaction reserves its lines and recomputes the cache, or rolls back when a CHECK would fail |
| Shipping.SyncVariantCache | backend/src/warehouse/warehouse.service.ts:70-80 | The cache columns become the sums over all warehouses |
| Shipping.SyncIsWriteThrough | backend/src/warehouse/warehouse.service.ts:70-80 | On sound tables recomputing the cache equals incrementing it |
| Shipping.ShippableIff | backend/src/warehouse/warehouse.service.ts:163-172 | Lines can all be shipped exactly if they fit the availability per warehouse and variant |
| Shipping.RoutedShipmentsFit | backend/src/warehouse/warehouse.service.ts:98-187 | A corollary: all shipments of a routed order with distinct variants can be reserved, and reserved stays within stock |
| Shipping.RoutedUnitsMatch | backend/src/warehouse/warehouse.service.ts:127-150 | A routed order ships, per variant, exactly its units, repeated variants included |
| Shipping.RoutedOrderShipsIff | backend/src/warehouse/warehouse.service.ts:98-187 | On an unchanged snapshot a routed order can be reserved exactly if each variant that occurs more than once fits, all its items together, in the warehouse its first item comes from; then exactly its units are reserved |
| Shipping.RepeatedVariantOverbooks | backend/src/warehouse/warehouse.service.ts:109-144 | Two warehouses of three units, items of four and one: routed as a split, and not reservable |
| Csv.ParseCSVLine | backend/src/products/products.service.ts:565-585 | The index loop with lookahead computes the recursive scan |
| Csv.ParsesEveryRecord | backend/src/products/products.service.ts:564-585 | Every record of section 2, rules 5 to 7, of RFC 4180 is parsed to its fields, whichever of them are quoted |
| Csv.RowRoundTripIff | backend/src/admin/admin.controller.ts:73-79 | Parsing a printed row returns its fields, for arbitrary texts, exactly if there is at least one |
| Csv.HeaderRoundTripIff | backend/src/admin/admin.controller.ts:72 | An unquoted row comes back exactly if no field contains a quote or a comma |
| CsvFile.BulkUpload | backend/src/products/products.service.ts:474-511 | The guards on line count and columns, the width check and the trimmed cells of the upload compute the function on its text |
| CsvFile.FileRoundTripIff | backend/src/products/products.service.ts:474-511 | An exported file uploads to its rows exactly if there is a row, the header is one line with the required columns, and every row has a cell per column, each one line without surrounding space |
| CsvFile.RevenueExportIsRefused | backend/src/admin/admin.service.ts:101-108 | The revenue export is refused by the upload whatever its rows |
| CsvFile.PaddedCellIsChanged | backend/src/products/products.service.ts:503-511 | A cell with surrounding spaces uploads without them |

## Left out

- Postgres isolation anomalies inside one transaction: a transaction is atomic.
- Process crashes between the statements of a gateway refund, beyond the writes that are lost or throw.
- Wall clocks that run backwards, and the skew between processes.
- Floating point: money is in integer minor units, `0.95 * n` is `19 * n / 20`, which agree for every buffer size up to 200.
- Order totals, discounts, prices, taxes and coupons (I-5, I-7, I-9): the coupon update of a checkout is an oracle.
- Cart checks, price drift, DTO validation, authorisation, and the hook call inside `createReservation`.
- Redis expiry of gate counters, which only makes the gate answer less often, and the tokens given back after a release or an expiry, which are best effort.
- The `allowBackorder` flag of guest lines is an input; the code passes none, so its guest lines never backorder.
- Admin status writes, the payment webhook's CONFIRMED, CANCELLING and REFUNDED orders, and delivery or RTO of shipments are not steps of the store machine; `StaleReads.StatusWriteKeepsAccountsIff` says when such a write is harmless.
- `routeOrder` reserves again what placing the order has reserved at DEFAULT; the store machine does not include it.
- The validator's own I-2 query also counts SHIPPED orders, which hold nothing.
- The paymentStatus roll-up of an item refund, reconciliation rows, tracking events, notifications and metrics.
- Overlapping calls of one hook, for which a half-open breaker admits more than one trial.
- The chargeback debit and the mixed-payment reversal, which are debits and credits under references of their own.
- The object branch of the CSV export, which the report never takes.
- In the upload: cells are kept by column position and not by header name, header names are lower-cased in ASCII only, and what is stored from the cells is not modelled.
- The update and the alert for each exhausted refund are one step of the tick.
- OrdersService.ShipOrder: does not model a throw by a CHECK constraint, because `StoreAccounts.ChecksNeverThrow` shows that it needs accounts that are already broken; the store machine has that throw.
- OrdersService.CancelOrderItem: does not model a throw by a CHECK constraint, for the same reason.
- CartReservationService.ReleaseById: does not model the gate tokens given back after the transaction, because they are best effort.
- OrdersService.PlaceOrder: does not model the order's money columns, because no property here depends on them.
- WalletService.RefundOrderItem: does not model the paymentStatus roll-up of the order, because it moves no money.
- HookRunner.HookRunner.RunSync: does not model durations, error texts and the metrics push, because nothing depends on them.
