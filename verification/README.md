# Verified model of the resilient platform

Dafny models of the platform's stateful engines, each with the properties it is there to keep, proved over every
run or every interleaving. `dafny verify dfyconfig.toml` checks the whole project.

Each engine has a value layer, which gives the state as a datatype and each locked section of the code as a function
on it; the run lemmas are about that layer. It also has a class layer in the code's own form, records and maps
changed in place, where every method is proved to change its object exactly as the value layer says. The lock-by-lock
limiter, the interleaved payments and the overlapping outage have a value layer only. Mutex-guarded
sections are atomic steps; where one request takes several of them, the steps of different requests interleave
freely. Time is a parameter, durations are reals (whole nanoseconds where the code rounds), and ids drawn by `newID`
are parameters, assumed fresh where a statement needs it.

| file | engine |
|---|---|
| `TokenBucket.dfy`, `RateLimiter.dfy` | the gateway's token buckets and the rate limiter that evicts them |
| `LimiterGap.dfy` | the same limiter lock by lock, with evictions between a call's look-up and its use |
| `Breaker.dfy`, `GatewayBreaker.dfy` | the two circuit breakers, their equivalence, and what the proxy records |
| `Retry.dfy` | retries with backoff, and the client that runs them under the breaker |
| `OverlappingOutage.dfy` | the load on a failing downstream when many calls share the breaker |
| `Inventory.dfy`, `InventoryStore.dfy`, `InventoryRuns.dfy`, `InventoryCover.dfy`, `InventoryFates.dfy` | stock, reservations and expiry |
| `Orders.dfy`, `OrderIdempotency.dfy`, `OrderEvents.dfy`, `OrderEndings.dfy`, `OrderService.dfy` | interleaved order requests |
| `Payments.dfy`, `PaymentService.dfy` | charges and refunds, one after another, against the gateway's books |
| `PaymentCalls.dfy`, `PaymentOverlaps.dfy`, `PaymentMoney.dfy`, `PaymentBooks.dfy`, `PaymentRecords.dfy` | interleaved charges and refunds |
| `Outbox.dfy`, `Notifications.dfy`, `NotificationService.dfy` | retry budgets and dead letter queues |
| `Sums.dfy`, `Counting.dfy`, `Windows.dfy`, `Remainders.dfy` | sums over maps, occurrences, trimmed slices, remainders |

## Where the code and its documentation differ

The model follows the code. For each difference a lemma says exactly when the documented behaviour does hold, and
another shows a case where it does not.

- "`ReleaseReservation` is idempotent, safe to call multiple times": releasing twice is indeed releasing once
  (`ReleaseTwiceIsOnce`), but a release after expiry gives back units that the expiry gave back already, and those
  may be another customer's. `OversellingRun` sells five units twice and leaves stock at -5; adding a product again
  while units of it are reserved does the same (`AddedAgainRun`). `SafeExactlyWhenNeverUncovered` says exactly when a
  run can be oversold: if and only if some release of an expired reservation leaves fewer units marked reserved than
  active reservations hold, or some product comes in with less stock, or fewer units marked reserved, than they
  hold. `SoundExactlyWhenNeverUnsettled` is about a stronger property, that the marks are exact.
- "An idempotency key prevents duplicate orders": a retry that arrives between the recording of the key and the
  storing of the order creates a second order (`OverlappingRetryDuplicates`). `OrdersWhenAllReplied` counts the
  orders exactly; there is one if and only if no lookup came too early.
- "The same idempotency key always returns the same payment, no double charges": a retry that arrives between the
  recording of the key and the storing of the payment charges the customer again (`OverlappingChargesTakeTwice`).
  `ChargesWhenAllAnswered` counts the charges of a key exactly; there is one if and only if no lookup came too early.
  Two refunds that overlap can pay one payment back twice (`OverlappingRefundsPayTwice`), and only such two can
  (`RefundedTwiceOverlaps`); `TakingsWhenAllAnswered` says what that costs.
- A cancelled order can become confirmed again, when the call that created it still has an update to make
  (`CancelledThenConfirmed`). `CancelLastsExactly` says when a cancellation lasts; `OverwritesCancel` gives the
  steps that undo it.
- "Five failures open the breaker": the gateway's proxy records a transport error twice, so three are enough
  (`ThreeTransportErrorsOpen`); `OpensOnDoubledErrors` gives the exact weight that does. This takes the reverse proxy to hand
  the wrapped response writer to its error handler, as Go's `httputil.ReverseProxy` does.
- "After five failed attempts a notification moves to the dead letter queue": the move locks a mutex that the same
  call already holds. `QueueNeverFills` shows that the code as written stops at the first delivery that should move
  a notification, so its queue stays empty; the other notification lemmas are about the intended effect, with the
  inner lock left out.

## Model

| member | source | states |
|---|---|---|
| `TokenBuckets.TokenBucket.constructor` | services/api-gateway/cmd/main.go:31-38 | a new bucket is full as of now |
| `TokenBuckets.TokenBucket.Allow` | services/api-gateway/cmd/main.go:40-55 | refills by elapsed time up to the burst, and spends one token if there is one |
| `TokenBuckets.LevelIsLeastRoom` | services/api-gateway/cmd/main.go:40-55 | the level a call finds is exactly the least, over all windows ending at it, of burst + rate * length - admissions in the window |
| `TokenBuckets.RefusesOnlyWhenFull` | services/api-gateway/cmd/main.go:40-55 | a call is admitted if and only if that pushes no window past burst + rate * length |
| `TokenBuckets.BucketConforms` | services/api-gateway/cmd/main.go:40-55 | no window of any call sequence ever exceeds burst + rate * length |
| `TokenBuckets.BucketIsOptimal` | services/api-gateway/cmd/main.go:40-55 | no decision sequence that keeps every window in bounds has admitted more calls at any point |
| `TokenBuckets.WindowBound` | services/api-gateway/cmd/main.go:40-55 | decisions that keep every window in bounds admit at most burst + rate * (y - x) calls from any time x to any time y |
| `RateLimiters.RateLimiter.EnsureBucket` | services/api-gateway/cmd/main.go:74-81 | an unknown client gets a full bucket, nobody else is touched |
| `RateLimiters.RateLimiter.UseBucket` | services/api-gateway/cmd/main.go:82 | one client's bucket answers and changes, no other does |
| `RateLimiters.RateLimiter.Allow` | services/api-gateway/cmd/main.go:74-83 | the two together are one step of the limiter |
| `RateLimiters.RateLimiter.Cleanup` | services/api-gateway/cmd/main.go:85-98 | the loop, in any order, drops exactly the buckets idle for more than ten minutes |
| `RateLimiters.KeptExactly` | services/api-gateway/cmd/main.go:74-98 | after any run a client has a bucket if and only if it has called and no sweep came more than ten minutes after its last call, whoever else is busy or idle |
| `RateLimiters.CoupledReplies` | services/api-gateway/cmd/main.go:74-99 | from coupled states the evicting limiter and one that never forgets answer every later call alike |
| `RateLimiters.EvictionCanTell` | services/api-gateway/cmd/main.go:74-99 | if 600 s do not refill a bucket of one token or more, some run gets different answers |
| `RateLimiters.EvictionUnobservable` | services/api-gateway/cmd/main.go:74-99 | eviction is unobservable in every run if and only if burst < 1 or burst <= 600 * rate |
| `RateLimiters.GatewayEvictionUnobservable` | services/api-gateway/cmd/main.go:252 | the gateway's 100 and 200 meet that condition |
| `RateLimiters.ClientIsAlone` | services/api-gateway/cmd/main.go:74-83 | a client's answers are those of a lone bucket on its own calls |
| `RateLimiters.EachClientWithinLimits` | services/api-gateway/cmd/main.go:74-99 | if burst < 1 or burst <= 600 * rate, in every run of the evicting limiter each client gets a lone bucket's answers, and is admitted at most burst + rate * (y - x) times from any time x to any time y |
| `LimiterGaps.AtOnceIsTouch` | services/api-gateway/cmd/main.go:74-83 | with nothing in between, look-up and use are the one step of `RateLimiter.Allow` |
| `LimiterGaps.LookUpsUsedOnce` | services/api-gateway/cmd/main.go:74-83 | over every interleaving there is at most one use for each look-up |
| `LimiterGaps.OwnUsesUnforgotten` | services/api-gateway/cmd/main.go:74-99 | over every interleaving of look-ups, uses and evictions, with burst < 1 or burst <= 600 * rate, the uses that find their client's own bucket are answered as by a limiter that never forgets and serves them alone |
| `LimiterGaps.OrphansExceedByOne` | services/api-gateway/cmd/main.go:74-99 | under the same condition a client is admitted from time x to time y at most burst + rate * (y - x) times, and once more for each use of a bucket evicted between its look-up and its use |
| `LimiterGaps.OrphanAdmits` | services/api-gateway/cmd/main.go:74-99 | for every limiter with a burst of at least one token, a run in which such a use takes a client past its bound |
| `LimiterGaps.GapHarmlessExactly` | services/api-gateway/cmd/main.go:74-99 | over all interleavings every client stays within burst + rate * (y - x) if and only if burst < 1 |
| `Breakers.CircuitBreaker.BeginExecute` | pkg/resilience/resilience.go:92-106 | the first locked section of Execute |
| `Breakers.CircuitBreaker.FinishExecute` | pkg/resilience/resilience.go:110-137 | the second locked section of Execute |
| `Breakers.InFlightExactly` | pkg/resilience/resilience.go:92-137 | a call is in flight exactly if some event admitted it and none since has finished it |
| `Breakers.TotalsAreExact` | pkg/resilience/resilience.go:92-137 | over every interleaving the totals count completions and requests; in every execution, where only calls in flight finish, requests = successes + failures + refused + number of calls in flight |
| `Breakers.CountersAreExact` | pkg/resilience/resilience.go:110-137 | failures is the number of failed completions since the last success or move into Open, modulo the threshold; in Closed it is the plain streak; successes is zero outside half-open |
| `Breakers.LastFailureIsLatest` | pkg/resilience/resilience.go:113-117 | lastFailure is the time of the latest failure, stragglers included |
| `Breakers.AdmitsAfterTimeout` | pkg/resilience/resilience.go:96-105 | an open breaker admits if and only if every failure so far is more than timeout ago; a request is refused if and only if the breaker is open and some failure is no older |
| `Breakers.SuccessesSinceHalfOpen` | pkg/resilience/resilience.go:97-100 | in half-open, successes counts exactly the completions since half-open was entered, none a failure |
| `Breakers.NextState` | pkg/resilience/resilience.go:92-137 | the next state, for every state and event, in terms of the history alone |
| `GatewayBreakers.CircuitBreaker.Admit` | services/api-gateway/cmd/main.go:146-160 | the gateway's admission check |
| `GatewayBreakers.CircuitBreaker.Succeeded` | services/api-gateway/cmd/main.go:162-172 | records a success; closing keeps the count |
| `GatewayBreakers.CircuitBreaker.Failed` | services/api-gateway/cmd/main.go:174-185 | records a failure |
| `GatewayBreakers.CircuitBreaker.Forwarded` | services/api-gateway/cmd/main.go:315-337 | what an admitted request records: a transport error twice, a status of 500 or more once |
| `GatewayBreakers.SameMachine` | services/api-gateway/cmd/main.go:146-185 | over every interleaving the gateway's breaker and the package's are in the same state and answer alike; success counts differ at most by the stale one |
| `GatewayBreakers.StaleSuccesses` | services/api-gateway/cmd/main.go:166-171 | an execution after which the counts do differ |
| `GatewayBreakers.OpensOnDoubledErrors` | services/api-gateway/cmd/main.go:315-337 | a fresh breaker stays closed through any serial run if and only if at no point twice the transport errors plus the responses of 500 or more, since the last response below 500, reach the threshold; it then opens |
| `GatewayBreakers.WeightWithoutSuccess` | services/api-gateway/cmd/main.go:315-337 | without a response below 500 that weight is twice all transport errors plus all error responses |
| `GatewayBreakers.HalfOpenCloses` | services/api-gateway/cmd/main.go:162-172 | from half-open, responses below 500 in a row close the breaker on the successThreshold-th |
| `GatewayBreakers.OpenRecovers` | services/api-gateway/cmd/main.go:146-160 | an open breaker refuses until timeout has passed; then one failing request reopens it and successThreshold responses below 500 in a row close it |
| `GatewayBreakers.UpstreamSettings` | services/api-gateway/cmd/main.go:211 | with those settings the fifth error response in a row opens the breaker, and after more than thirty seconds two responses below 500 close it |
| `GatewayBreakers.ThreeTransportErrorsOpen` | services/api-gateway/cmd/main.go:316-337 | with the settings of line 211, three transport errors open an upstream's breaker |
| `Retries.Retry` | pkg/resilience/resilience.go:157-171 | calls up to the first success or maxAttempts, succeeds exactly when a call did, sleeps once between calls |
| `Retries.BackoffBounds` | pkg/resilience/resilience.go:173-182 | a delay is within a quarter of base * multiplier^attempt, up to rounding, and never above maxDelay |
| `Retries.BackoffExactly` | pkg/resilience/resilience.go:173-182 | the random number moves the delay by that many quarters of base * multiplier^attempt; it is the largest whole number within that and maxDelay |
| `Retries.TotalSleepBounded` | pkg/resilience/resilience.go:165-182 | the sleeps together take at most the sum of min(maxDelay, 1.25 * base * multiplier^i) |
| `Retries.GeometricBound` | pkg/resilience/resilience.go:173-182 | with a multiplier above one that sum is below the geometric closed form |
| `Retries.ResilientClient.Do` | pkg/resilience/resilience.go:213-219 | retries under the breaker: refused calls reach nothing, admitted ones call up to the first success or maxAttempts, and the breaker records the outcome |
| `Retries.OutageState` | pkg/resilience/resilience.go:92-136 | against a failing downstream the breaker counts to its threshold, then each admission waits one more timeout |
| `Retries.OutageAdmissions` | pkg/resilience/resilience.go:92-219 | at most failureThreshold + floor(span / timeout) turns are admitted |
| `Retries.OutageLoad` | pkg/resilience/resilience.go:92-219 | the downstream is called at most maxAttempts times as often |
| `OverlappingOutages.OverlappingAdmissions` | pkg/resilience/resilience.go:92-137 | when calls overlap, at most m in flight, a failing downstream is let at most failureThreshold + m - 1 + m * (moves out of Open) calls, and those moves are at most floor(span / timeout) |
| `OverlappingOutages.OverlappingLoad` | pkg/resilience/resilience.go:92-219 | those calls make at most maxAttempts times as many calls of the downstream |
| `Retries.OutageLoadReached` | pkg/resilience/resilience.go:92-219 | k admissions beyond the threshold do happen in any span longer than k timeouts |
| `InventoryStores.InventoryStore.AddProduct` | services/inventory-service/cmd/main.go:67-72 | stores the product with available = stock - reserved |
| `InventoryStores.InventoryStore.Reserve` | services/inventory-service/cmd/main.go:81-108 | the checks of lines 246-255 and the store's, and what a reservation changes |
| `InventoryStores.InventoryStore.ConfirmReservation` | services/inventory-service/cmd/main.go:110-131 | an active reservation's units leave stock for good |
| `InventoryStores.InventoryStore.GiveBack` | services/inventory-service/cmd/main.go:143-151 | reserved units come back, never below zero reserved |
| `InventoryStores.InventoryStore.ReleaseReservation` | services/inventory-service/cmd/main.go:133-154 | only released and confirmed reservations are left alone |
| `InventoryStores.InventoryStore.ExpireReservation` | services/inventory-service/cmd/main.go:173-184 | one turn of the expiry loop |
| `InventoryStores.InventoryStore.ExpireStale` | services/inventory-service/cmd/main.go:168-187 | whatever order the loop takes, the store and the count are those of expiring all stale reservations at once |
| `Inventory.ExpireAmongNext` | services/inventory-service/cmd/main.go:172-184 | each turn goes from one partial sweep to the next, clamps included |
| `Inventory.SweepsCompose` | services/inventory-service/cmd/main.go:168-187 | a sweep and a later one leave what the later one alone leaves, and the counts add up |
| `Inventory.SweepTwiceIsOnce` | services/inventory-service/cmd/main.go:168-187 | a repeated sweep does nothing |
| `Inventory.SweepCounts` | services/inventory-service/cmd/main.go:168-187 | the sweep answers with the number of reservations it changed, each from active to expired |
| `Inventory.ReleaseTwiceIsOnce` | services/inventory-service/cmd/main.go:133-154 | releasing a reservation again does nothing and answers alike |
| `InventoryRuns.StepKeeps` | services/inventory-service/cmd/main.go:67-187 | every operation, AddProduct of a known id included, conserves units; it keeps a sound store sound if and only if it does not release an expired reservation of a product with reserved units, nor add a product whose reserved count is not its active units or exceeds its stock |
| `InventoryRuns.RunConserves` | services/inventory-service/cmd/main.go:67-187 | in every run stock + confirmed = what was supplied, available = stock - reserved, reserved <= active units + those the product came in reserved beyond them |
| `InventoryRuns.NewArrival` | services/inventory-service/cmd/main.go:67-72 | for a product that is new and has nothing reserved, what was supplied is its stock and nothing is added to the bound |
| `InventoryRuns.SoundExactlyWhenNeverUnsettled` | services/inventory-service/cmd/main.go:67-187 | a run is sound throughout if and only if it has no such release and no such addition |
| `InventoryRuns.SoundNeverOversells` | services/inventory-service/cmd/main.go:110-187 | in a sound store 0 <= reserved <= stock, 0 <= available and confirmed <= supplied |
| `InventoryCover.StepCovers` | services/inventory-service/cmd/main.go:67-187 | an operation keeps active reservations covered, by marks and by stock, if and only if it is no release of an expired reservation that leaves fewer marked than they hold, and no addition of a product with less stock or fewer marked |
| `InventoryCover.UncoveredOversells` | services/inventory-service/cmd/main.go:74-131 | reserving what is available and confirming takes the stock of an uncovered product below zero |
| `InventoryCover.SafeExactlyWhenCovered` | services/inventory-service/cmd/main.go:74-187 | a store can be oversold, by reservations, confirmations, active releases and sweeps, if and only if some product is not covered |
| `InventoryCover.SafeExactlyWhenNeverUncovered` | services/inventory-service/cmd/main.go:67-187 | no store of a run can be oversold if and only if the run has no such release and no such addition |
| `InventoryCover.ClampsExactly` | services/inventory-service/cmd/main.go:143-184 | in a covered store the only operation that is clamped at zero is the release of an expired reservation whose product has fewer units reserved than it held; no sweep is, in any order of its turns |
| `InventoryCover.CarefulNeverOversells` | services/inventory-service/cmd/main.go:67-187 | in a run that never releases an expired reservation and adds products with their active reservations covered, at every point the store cannot be oversold, active reservations are covered, and no operation is clamped |
| `InventoryCover.CarefulAndCountedIsSound` | services/inventory-service/cmd/main.go:67-187 | if besides products are added with the right count, 0 <= reserved = active units <= stock throughout |
| `InventoryRuns.ReservesExactlyWhatIsFree` | services/inventory-service/cmd/main.go:85-107 | a sound store takes a request if and only if that many units are held by no active reservation |
| `InventoryRuns.HeldForFifteenMinutes` | services/inventory-service/cmd/main.go:168-187 | a reservation made at one time and swept at another expires if and only if more than the fifteen minutes of line 256 passed, and its units come back |
| `InventoryFates.FateDecides` | services/inventory-service/cmd/main.go:81-187 | in every run a reservation that was made carries what was asked for, until fifteen minutes later; its status is decided by the first confirmation, release or late sweep since, a release also taking over an expired one |
| `InventoryFates.KnownStatus` | services/inventory-service/cmd/main.go:110-139 | a reservation is known exactly if an operation made it, and active exactly if none has ended it since |
| `InventoryFates.ConfirmationsAnswered` | services/inventory-service/cmd/main.go:110-131 | a confirmation is done if and only if the reservation was made and not ended since, and if and only if it raises the confirmed units by the quantity; one never made is not found, one ended is not active |
| `InventoryFates.ConfirmedOnce` | services/inventory-service/cmd/main.go:110-131 | exactly one confirmation of a reservation that ends confirmed was answered with success, and none of any other |
| `InventoryFates.ReservationsAnswered` | services/inventory-service/cmd/main.go:81-108 | after every run: which check answers a reservation, whether its product was ever added, and whether stock - reserved covers it |
| `InventoryFates.AddedOffers` | services/inventory-service/cmd/main.go:67-72 | a product just added offers its stock less what it came in reserved |
| `InventoryFates.ReleasesAnswered` | services/inventory-service/cmd/main.go:133-142 | a release is done if and only if the reservation was made |
| `InventoryFates.ReserveMarks` | services/inventory-service/cmd/main.go:85-107 | a reservation marks its units of its product and changes no other |
| `InventoryFates.ConfirmTakes` | services/inventory-service/cmd/main.go:120-130 | a confirmation takes the units out of the stock and out of the mark of its product alone |
| `InventoryFates.ReleaseGivesBack` | services/inventory-service/cmd/main.go:140-153 | a release gives back what an active or expired reservation held, but no more than is reserved, to its product alone |
| `InventoryRuns.OversellingRun` | services/inventory-service/cmd/main.go:133-154 | a run in which reserved falls below the active units and stock ends at -5 |
| `InventoryRuns.AddedAgainRun` | services/inventory-service/cmd/main.go:67-72 | a run without any release that ends at -5, because a product is added again |
| `Orders.RunKeepsInv` | services/order-service/cmd/main.go:301-325 | over every interleaving a call with a key stores an order only as the key's owner or after a miss, never both; the order carries what the call asked for |
| `OrderIdempotency.OwnerNeverChanges` | services/order-service/cmd/main.go:66-74 | a key's owner never changes and stored orders stay stored |
| `OrderIdempotency.LaterLookupsFindOwner` | services/order-service/cmd/main.go:304-311 | once the owner's order is stored, every call with the key that has yet to look is answered with it and creates nothing |
| `OrderIdempotency.OrdersOfKey` | services/order-service/cmd/main.go:304-325 | the orders with a key are exactly the owner's and those of the calls that missed it |
| `OrderIdempotency.OrdersWhenAllReplied` | services/order-service/cmd/main.go:304-325 | once all calls are answered a key has 1 + misses orders; one if and only if there was no miss |
| `OrderIdempotency.SerialNeverMisses` | services/order-service/cmd/main.go:304-325 | calls that do not overlap never miss, so a key has at most one order |
| `OrderIdempotency.OverlappingRetryDuplicates` | services/order-service/cmd/main.go:304-325 | an interleaving of two calls that stores two orders |
| `OrderEvents.EventsMatchFields` | services/order-service/cmd/main.go:325-361 | over every interleaving a finished call published created and one ending, and the order's fields show that ending |
| `OrderEndings.EndingFollowsAnswers` | services/order-service/cmd/main.go:325-361 | over every interleaving a finished call published order.degraded if and only if the inventory service was down, order.payment_pending if and only if it was up and payment down, order.confirmed if and only if both were up; degraded mode and reason accordingly |
| `OrderEndings.StatusFollowsAnswers` | services/order-service/cmd/main.go:325-361 | in serial runs the order is then confirmed if both were up and pending payment otherwise, unless cancelled since |
| `OrderEvents.StatusUnderWay` | services/order-service/cmd/main.go:313-343 | in serial runs an order is pending until its stock is reserved, and marked confirmed before it is paid for |
| `OrderEvents.CancelAnswers` | services/order-service/cmd/main.go:372-380 | only a stored order can be cancelled; unless shipped or delivered it is, and that is published once; nothing else changes |
| `OrderEvents.OverwritesCancel` | services/order-service/cmd/main.go:333-357 | before its last update, steps of the creating call alone, with every downstream up, overwrite a cancellation: with Confirmed, or PendingPayment if the call had already failed |
| `OrderEvents.CancelledThenConfirmed` | services/order-service/cmd/main.go:313-380 | for any call without a key, a run from the start in which its order is cancelled and then ends Confirmed, with the call answered |
| `OrderEvents.CancelLastsExactly` | services/order-service/cmd/main.go:372-380 | a cancellation lasts in every continuation if and only if the creating call has made its last update |
| `OrderEvents.SerialEventsTellAll` | services/order-service/cmd/main.go:325-380 | in a serial run an order's events are created, one ending, then only cancellations, and they determine its status and fields |
| `OrderEvents.ServeIsARun` | services/order-service/cmd/main.go:281-362 | a call on its own is a run of the state machine |
| `OrderServices.IdempotencyStore.GetOrSet` | services/order-service/cmd/main.go:66-74 | the first id recorded for a key is returned ever after |
| `OrderServices.OrderStore.Set` | services/order-service/cmd/main.go:106-116 | an update writes the stored record and no other |
| `OrderServices.EventPublisher.Publish` | services/order-service/cmd/main.go:227-240 | the outbox is always the last maxSize events of the full log |
| `OrderServices.OrderService.Check` | services/order-service/cmd/main.go:282-299 | the first bad item decides; a good request gets its total |
| `OrderServices.AcceptedExactly` | services/order-service/cmd/main.go:282-297 | a request is accepted if and only if it has a user and items, each of at least one unit and not of a negative price; otherwise exactly one answer fits |
| `OrderServices.TotalAdds` | services/order-service/cmd/main.go:289-299 | totals add up over any split of the items |
| `OrderServices.TotalOfUnits` | services/order-service/cmd/main.go:289-299 | units of one price cost their number times the price, however split into items |
| `OrderServices.OrderService.Create` | services/order-service/cmd/main.go:301-362 | does the steps of the state machine one after another |
| `OrderServices.OrderService.CreateOrder` | services/order-service/cmd/main.go:281-362 | a bad request changes nothing and is told the first thing wrong with it, a good one does those steps |
| `OrderServices.ServeCreates` | services/order-service/cmd/main.go:301-361 | the order, with every field, and the two events that a call leaves for each pair of downstream answers |
| `OrderServices.ServeReplays` | services/order-service/cmd/main.go:304-311 | a key whose order is stored is answered with it and nothing changes |
| `OrderServices.OrderService.CancelOrder` | services/order-service/cmd/main.go:372-380 | one update that publishes from inside |
| `Windows.LastAppend` | services/order-service/cmd/main.go:236-238 | trimming after each append keeps what trimming once would |
| `Windows.LastAreNewest` | services/order-service/cmd/main.go:236-238 | what is kept are the newest entries in their order, all of them or the limit |
| `Payments.ChargeKeeps` | services/payment-service/cmd/main.go:210-268 | a charge keeps the gateway's books balanced and keys linked to payments |
| `Payments.RefundKeeps` | services/payment-service/cmd/main.go:270-289 | so does a refund |
| `Payments.BooksBalance` | services/payment-service/cmd/main.go:210-289 | in every serial run takings less refunds equal the sum of succeeded payments; a key is charged once; a payment is refunded at most once, exactly if it says so |
| `Payments.ReplaysReturnFirst` | services/payment-service/cmd/main.go:225-233 | a key's first payment answers every later request with it, even if it failed, and the gateway is not called |
| `PaymentServices.PaymentService.Charge` | services/payment-service/cmd/main.go:210-268 | the service's records, payments and gateway calls change as the value layer says |
| `PaymentServices.PaymentService.Refund` | services/payment-service/cmd/main.go:270-289 | so do they for a refund |
| `PaymentServices.PaymentService.GetByOrderID` | services/payment-service/cmd/main.go:85-94 | finds a payment for the order if there is one |
| `PaymentRecords.PaymentsCarryRequests` | services/payment-service/cmd/main.go:235-265 | over every interleaving a payment is stored exactly by a charge that got that far; it says what that charge asked for, and what the gateway answered |
| `PaymentRecords.SerialPaymentsCarry` | services/payment-service/cmd/main.go:235-249 | in every serial run, too, each payment says what a proper charge asked for |
| `PaymentRecords.LookUpByOrder` | services/payment-service/cmd/main.go:85-94 | a look-up by order finds a payment if and only if a charge for that order has stored one |
| `PaymentRecords.ChargesAnswered` | services/payment-service/cmd/main.go:210-268 | over every interleaving, which answer a charge gets |
| `PaymentRecords.RefundsAnswered` | services/payment-service/cmd/main.go:270-289 | over every interleaving, what each step of a refund answers: not found if and only if no charge stored the payment; otherwise not refundable if and only if it did not succeed or was refunded already |
| `PaymentRecords.RefundedExactly` | services/payment-service/cmd/main.go:283-286 | a payment says refunded if and only if a refund of it was answered with success |
| `PaymentCalls.AloneIsWhole` | services/payment-service/cmd/main.go:210-289 | the steps of a call that nothing interrupts come to the whole charge or refund above |
| `PaymentOverlaps.RunKeepsInv` | services/payment-service/cmd/main.go:210-289 | over every interleaving a charge with a key stores a payment only as the key's owner or after a miss, never both; each payment stands as its charge and refunds have left it |
| `PaymentMoney.RunTallied` | services/payment-service/cmd/main.go:245-286 | over every interleaving the gateway was called once for each charge past that step and paid out once for each refund past it; a payment marked refunded was |
| `PaymentMoney.KeyChargedAtMost` | services/payment-service/cmd/main.go:54-62 | at every point a key has been charged at most 1 + misses times |
| `PaymentMoney.ChargesWhenAllAnswered` | services/payment-service/cmd/main.go:225-257 | once all charges with a key are answered it has been charged 1 + misses times; once if and only if there was no miss |
| `PaymentMoney.RefundedTwiceOverlaps` | services/payment-service/cmd/main.go:270-286 | a payment is paid back twice if and only if two refunds that are paid out both found it succeeded before either had marked it |
| `PaymentBooks.TakingsWhenAllAnswered` | services/payment-service/cmd/main.go:210-289 | once all is answered takings less refunds = sum of succeeded payments - repeated refunds; they agree if and only if no payment was paid back twice; a payment says refunded if and only if it was |
| `PaymentBooks.SerialKeepsPromises` | services/payment-service/cmd/main.go:210-289 | calls that do not overlap charge a key at most once and pay a payment back at most once |
| `PaymentBooks.OverlappingChargesTakeTwice` | services/payment-service/cmd/main.go:225-257 | an interleaving of two charges with one key that takes the money twice |
| `PaymentBooks.OverlappingRefundsPayTwice` | services/payment-service/cmd/main.go:270-286 | an interleaving of two refunds that pays the money back twice |
| `Outboxes.Outbox.Add` | pkg/events/events.go:108-120 | a new pending entry with five attempts |
| `Outboxes.Outbox.MarkPublished` | pkg/events/events.go:122-130 | marks any known entry |
| `Outboxes.Outbox.MarkFailed` | pkg/events/events.go:132-147 | counts the attempt; at the limit and beyond the entry is queued |
| `Outboxes.Outbox.GetPending` | pkg/events/events.go:149-159 | exactly the pending and failed entries, once each |
| `Outboxes.QueueCountsLateFailures` | pkg/events/events.go:132-147 | in every run on any ids an entry is queued exactly max(0, attempts - 4) times |
| `Outboxes.NoDuplicatesExactly` | pkg/events/events.go:132-147 | the queue has no duplicates if and only if no entry was failed more than five times |
| `Outboxes.PoliteQueueIsDead` | pkg/events/events.go:108-177 | if only pending entries are marked the queue is exactly the dead entries, once each, and the status counts add up to the number of adds |
| `Outboxes.StatusFollowsMarks` | pkg/events/events.go:122-147 | in every run an entry's status is decided by its marks since it was added: pending if none, published if and only if that was the last, and after a last failure dead from the fifth on |
| `Outboxes.PendingFollowsMarks` | pkg/events/events.go:149-159 | what is still to be published is exactly what was added and not marked, or last marked with a failure before the fifth |
| `Notifications.QueueIsLastDead` | services/notification-service/cmd/main.go:108-116 | the queue is the last 1000 notifications that died, in order, each once, and those are exactly the ones marked dead |
| `Notifications.OutcomesDecide` | services/notification-service/cmd/main.go:85-116 | however deliveries overlap, a notification's attempts and status are those of its own outcomes, and it is queued once for every failure from the fifth delivery on |
| `Notifications.QueuedOnceExactly` | services/notification-service/cmd/main.go:108-116 | however deliveries overlap, a notification has been queued if and only if it failed from its fifth delivery on, and none twice if and only if none failed so more than once |
| `Notifications.RunsAreReady` | services/notification-service/cmd/main.go:207-229 | however deliveries overlap, a pending notification has attempts left |
| `Notifications.DeliverySpendsBudget` | services/notification-service/cmd/main.go:207-229 | each delivery of a pending notification lowers the sum of attempts left |
| `Notifications.SendTriesOnce` | services/notification-service/cmd/main.go:256-272 | a notification under a new id has been tried once, and is sent or waits for another try |
| `Notifications.SendIsARun` | services/notification-service/cmd/main.go:256-272 | sending is a creation and a delivery, one after the other |
| `Notifications.RoundDeliversEach` | services/notification-service/cmd/main.go:200-205 | a round delivers each notification of its snapshot once |
| `Notifications.RoundIsSequential` | services/notification-service/cmd/main.go:200-205 | each is still pending when its turn comes |
| `Notifications.RoundsFinish` | services/notification-service/cmd/main.go:200-229 | from any such state five rounds without new sends leave every notification sent or dead |
| `Notifications.DeadlocksExactlyOnLastFailure` | services/notification-service/cmd/main.go:85-116 | taking every lock the code takes, a delivery deadlocks if and only if it should have moved a notification to the queue |
| `Notifications.QueueNeverFills` | services/notification-service/cmd/main.go:207-229 | so the code as written gets through a run if and only if nothing was to be moved, with an empty queue |
| `Notifications.FifthFailureDeadlocks` | services/notification-service/cmd/main.go:207-229 | the fifth failure of one notification stops it |
| `NotificationServices.NotificationService.MoveToDLQ` | services/notification-service/cmd/main.go:108-116 | marks the record dead and keeps the last 1000 |
| `NotificationServices.NotificationService.Deliver` | services/notification-service/cmd/main.go:207-229 | one delivery, inner lock left out |
| `NotificationServices.NotificationService.DeliverAsWritten` | services/notification-service/cmd/main.go:207-229 | one delivery with every lock the code takes; it may wait for ever |
| `NotificationServices.NotificationService.Send` | services/notification-service/cmd/main.go:256-272 | stored, then delivered at once |
| `NotificationServices.NotificationService.GetPending` | services/notification-service/cmd/main.go:96-106 | a snapshot of the pending notifications in some order |
| `NotificationServices.NotificationService.ProcessPending` | services/notification-service/cmd/main.go:200-205 | the loop delivers the snapshot in its order |

## Left out

- RateLimiters.RateLimiter.Allow: one step, although the code drops the limiter's lock before it uses the bucket; `LimiterGaps` takes the steps apart.
- Breakers.NextState: takes both thresholds to be at least one, as every configuration in the repository has them; the equivalence of the two breakers does not need it.
- Retries.Retry: each attempt is an outcome, a time-out counting as a failure; the goroutine and channel of `WithTimeout` and the sleeping itself are not modelled, nor is overflow when a float becomes a duration.
- TokenBuckets.TokenBucket.Allow: reals for float64; rounding is not modelled, and the statements about call sequences take a rate and a burst that are not negative.
- Payments.BooksBalance: whole requests one after another; `PaymentBooks` has the books of requests that overlap.
- The class layer of the limiter's separate steps, of the interleaved payments and of the overlapping outage: the classes take one request after another.
- Notifications.QueueIsLastDead: only pending notifications are delivered, as one delivery at a time guarantees; what overlapping deliveries come to is `OutcomesDecide` and `QueuedOnceExactly`.
- NotificationServices.NotificationService.Deliver: the intended effect, without the inner lock; `DeliverAsWritten` has it.
- NotificationServices.NotificationService.Send: delivers with the inner lock left out, as Deliver does.
- NotificationServices.NotificationService.ProcessPending: delivers with the inner lock left out, as Deliver does.
- OrderServices.OrderService.Create: the events' payloads are pointers to the order; the model keeps the event type and the order's id.
- The in-memory event bus and the size-limited `DLQ` type of pkg/events; their trimming is that of `Windows.LastAppend`.
- Records changed through the pointers that methods return to their callers.
- HTTP handlers, routing, JSON, the reverse proxy itself, metrics, health endpoints, logging, start-up and shutdown.
- The user service, the upstream registry, low-stock listings, `Stats` and list methods other than those above, and the checks on a notification's fields.
- Names, SKUs, regions, subjects, bodies, creation and update times, and the text of errors.
- The background publisher and reconciliation job that the repository's documentation describes but its code does not have.
