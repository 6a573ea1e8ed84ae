# The Hyperliquid monitor: from fills to signals

The program watches addresses on an exchange and turns the stream of their fills
and order statuses into one trade signal per order leg. Fills can be replayed,
statuses can overtake fills, the queue can overflow, the process can restart.
This project models the parts that have to stay right under all of that, and
proves what they keep.

| files | what they model |
|---|---|
| `OrderProtocol`, `OrderInvariants`, `SignalContents`, `OrderProjection`, `ChannelOverflow`, `FlushRequests`, `RequestRules` | the order processor as a timed state machine (pending legs, status tracker, TTL dedup cache, flush channel, published log, clock), what every reachable state keeps, what a signal says, the independence of orders and where it ends, what requests a flush and what becomes of a request |
| `FlushWorkers` | a flush in its separate steps, run by a pool of workers without a lock while fills arrive |
| `OrderProcessor`, `Caches` | the processor as the mutable object it is: each method is proved to do exactly the step of the state machine |
| `Pipeline`, `ArrivalRules`, `PipelineSafety`, `PipelineLimits` | the queue in front, the age filter, the table behind, crash and reload; what gets in and what is left of it; no fill is counted twice; why each trust is needed |
| `PipelineInvariants`, `PipelineRestarts` | spacing and conservation over restarts, and exactly what a restart costs |
| `SubscriptionManager`, `Schedules`, `ReversalSplit`, `Broadcast`, `UpdateRaces` | the subscription of an address and its callbacks: grouping, the split of reversal fills, ownership of order updates, also when their steps interleave |
| `BatchProtocol`, `BatchWriter`, `BatchSteps` | the deduplicating write buffer against sequential upserts, with a flush as one step and in its separate steps |
| `GracePeriod`, `AddressSync` | the address set with a removal grace period |
| `RoutingTable`, `ConnectionPool`, `PoolRuns` | subscriptions routed over connections, across reconnects, and how many connections there come to be |
| `NonceProtocol`, `ConcurrentMap` | two lock-free protocols, one atomic operation a step |
| `Rounding`, `Wire`, `Decimal`, `Keys`, `Filters`, `Basics` | decimal rounding and printing, the formatted keys, helpers |

Conventions. Clock readings are integer nanoseconds, a fill's stamp is in
milliseconds, `LastFillTime` in seconds, each truncated as the program truncates
them. A TTL entry is found up to and including its expiry. Sizes and prices are
reals. Map iteration is an arbitrary order: methods pick keys nondeterministically,
and theorems hold for every order. Publishing, upserting, dialling and sending are
steps whose success is a parameter.

How the layers fit. `OrderProcessor.Processor` has the source's fields and
updates them in place; `View(now)` reads them as a `Proc`, and each method's
`ensures` says that the new view is the protocol's step on the old one. One level
up, `SubscriptionManager.Manager` has a clock that any time may pass on between two
readings; what each of its methods does (a message of fills or of updates, one
turn of the queue's worker, one flush, one scan) is a stretch of `Pipeline` events
from its old view to its new one; subscribing an address works on a
`ConnectionPool.PoolManager`. The lemmas about `PipeRun` speak about all
sequences of such events together with writes, cleanings and restarts, which are
not the manager's: `Caches.ReloadedCache` says what the reloaded cache of a new
process is, and the writer's side is `BatchProtocol`.

## Main results

- **Replay and restart safety.** If signal j follows signal i for the same leg
  key, then every fill of i is stamped strictly before every fill of j, so no fill
  is in both, however often it is redelivered. The one exception is a restart that
  leaves the key of i without a mark while a fill of i is still fresh, and it is
  exact: after every timely run of dash-free addresses a timely continuation counts
  a fill of i again if and only if the restart was such a one
  (`RestartCountsAgainIff`). A row that was stored and reloaded is never the cause
  (`StoredIsNotExposed`); a row not yet written, or a reload that fails, which the
  program only logs, can be. The proof is one invariant that ties the 30 min age
  filter, the 30 min mark, the reload window with its truncation to seconds and the
  2 h row retention together. Three things are trusted, for any bound `lag`: a
  fill's dedup check follows the clock reading of its message's age filter in the
  same process and within the lag, the fill's stamp lies below the millisecond of
  the instant one nanosecond after the check moved back by the lag, and no message
  waits longer than the TTL. `PipelineLimits` has, for each trust, a run that keeps
  the other two and publishes one fill twice; `WindowsMeet` gives the exact
  condition on stamp and lag.
- **Signal spacing.** Within one process two signals for one key are more than the
  dedup TTL apart, whatever duplicate flush requests wait in the channel. Over any
  run with restarts, timely or not, they are unless a restart within the TTL left
  the key without a mark (`SpacingOverRestarts`), and exactly such a restart lets
  the key be signalled again too soon (`RestartCrowdsIff`).
- **Conservation.** Per key and within one process, the accepted fills are, one for
  one and in order, the fills of its signals followed by those of its pending leg;
  sizes and traded values add up; a leg leaves only by being published. Over
  restarts the fills of the legs that a crash took are the third summand
  (`ConservationOverRestarts`).
- **Signals and requests.** Over every run, restarts included, a signal's side,
  action and market are those of its leg's direction, its size, price and time those
  of the leg's fills (`SaysItsLeg`, in the exchange's own words). A terminal status
  requests exactly the pending legs of its order, and with the publisher up each of
  them is signalled by the time its request has been taken (`StatusLeadsToSignal`); a
  scan requests exactly the unsent legs whose first fill is older than five minutes
  (`OverdueIff`), and only such legs wait for a timeout flush (`TimeoutLegIsOld`).
- **Projection.** What a run does to one (address, oid) is what its own messages,
  with the clock and the scans, do alone, provided either all addresses have no `-`
  or all oids are not negative and all directions have no `-`, and none of the
  order's own flush requests was dropped. A reachable run of two orders shows that
  the last proviso is needed (`OverflowBreaksProjection`).
- **Flush requests.** An accepted fill is flushed at once if and only if its
  order's status is on record, and until another terminal status arrives only the
  timeout scan requests a leg of the order. **Flush workers** publish a leg once as
  long as no two flushes of one key are in flight, and as soon as two are they can
  publish it twice; a signal misses a fill that its leg accepts if and only if the
  fill arrives between the building of the signal and the flag
  (`SignalMissesIff`).
- **Batched writes.** Through any run, failing flushes included, table, buffer and
  queue hold what sequential upserts would, except under exactly the lost rows; so
  they do when collect, upsert and delete of any number of flushes interleave with
  the receive loop, where the lost rows are those whose item a delete drops unwritten
  or a late upsert sets back. **Subscribed addresses** are exactly the ones wanted
  under the grace period; **order updates** go to the owner once, and in separate
  steps they do as long as no two callbacks are at one order; **repair** moves
  exactly the keys of replaced connections; a full pool that may still grow dials
  **one connection per further key**, so its cap does not hold (`SubscribeEach`);
  **nonces** increase and follow the clock of their own attempt; the **counter**
  agrees with the map; **rounding** is correct to the last figure, halves going away
  from zero, and idempotent; **wire texts** are exactly the canonical numerals. Of a
  **message of fills** a schedule offers each leg exactly its fills' shares, a
  reversal closing the whole old position and opening what the fill has beyond it
  (`OffersExactly`), and the **table** holds under each row the last aggregation
  written for it until two hours are over (`TableAfterRun`).

## Where the code and its comments part

The model follows the code; each point is a theorem or part of one.

- The fill that creates a leg does not enter `seenTids`
  (internal/processor/order_processor.go:214-233), so its redelivery is counted a
  second time: `FirstFillCountsTwice`. A tid the leg holds is accepted again exactly
  when it is the first fill's and not repeated yet: `RepeatAcceptedIff`.
- A leg whose direction is not one of the six mapped ones never produces a signal
  and stays pending through every run
  (internal/processor/order_processor.go:485-534): `UnmappedLegStays`.
- For a reversed order whose status came first, the tracker entry goes with the
  first leg (internal/processor/order_processor.go:277-282):
  `ReversedSecondLegWaits`. The second leg is then pending until a timeout scan or
  another terminal status: `SecondLegNeedsTimeout`, `RunRequests`.
- A flush runs on many workers without a lock
  (internal/processor/order_processor.go:403-414, 423-463): `TwoWorkersPublishTwice`,
  `RaceRepublishes`. A fill accepted after the signal was built and before the leg is
  flagged is in no signal: `FillInTheGap`, `SignalMissesIff`.
- A failed upsert loses its items (internal/processor/batch_writer.go:169-180):
  `FailedFlush` says exactly when nothing is lost, for any queue, and
  `BatchProtocol.OverlayExceptLost` what is lost over a run. An item stored between a
  flush's collect and its delete is deleted unwritten, and of two flushes the slower
  can write an old item over a newer one (internal/processor/batch_writer.go:145-181):
  `StoredInBetween`, `WrittenOver`, `BatchSteps.OverlayExceptLost`.
- Order updates are checked, enqueued and forgotten on a pool of callbacks without a
  lock (internal/manager/subscription_manager.go:244-312): `TwoChecks`,
  `RaceEnqueuesTwice`.
- `Store`'s overwrite can re-insert a key deleted meanwhile without counting it
  (pkg/concurrent/map.go:34-41): `StoreRacesDelete`, `LenIsExact`.
- A connection made on demand never joins the pool
  (internal/ws/pool_manager.go:256-257), so a repair does not look at it:
  `OrphanStaysDead`, and the equivalence in `RepairConnections`; and it never counts
  against `maxConnections`: `DialsForEveryKey`, `SubscribeEach`, `CapHoldsIff`.
- Giving up any handle drops the key with all its callbacks
  (internal/ws/pool_manager.go:226-231): `Unsubscribe`, `SecondCallbackLost`,
  `OthersSurviveIff`.
- An address whose subscription failed stays on the list, so a later call does not
  try it again (internal/manager/subscription_manager.go:114-121): `FailureIsKept`.
- Unsubscribing one address forgets the owners of all orders, because a range
  parameter shadows the address (internal/manager/subscription_manager.go:143-146):
  `UnsubscribeAddress`, `ForgottenOwnersSilenceUpdates`.
- Splitting a reversal conserves size only when the fill covers the start position
  (internal/manager/subscription_manager.go:462-478): `SplitConservesSize`.
- The formatted keys are injective when the addresses have no separator, and also
  when the directions have none and the oids are not negative
  (`OrderKeyInjectiveOnOids`, `OrderDedupKeyInjectiveOnDirections`). Outside both
  they can collide: `DashedAddressesCollide`, `ColonAddressesCollide`.

## Model

| member | source | states |
|---|---|---|
| OrderInvariants.SignalSpacing | internal/processor/order_processor.go:423-463 | in every run of one process, from its start to a crash, two signals for one leg key are more than the dedup TTL apart |
| PipelineInvariants.SpacingOverRestarts | internal/cache/dedup_cache.go:55-83 | in every run with restarts, timely or not, the next signal of a key is more than the TTL later, unless a restart within the TTL left the key without a mark |
| PipelineRestarts.RestartCrowdsIff | internal/cache/dedup_cache.go:55-83 | after any run, for a signal no earlier restart has done this to: a restart lets its key be signalled again within the TTL, with no further crash, if and only if it leaves the key without a mark within the TTL |
| OrderInvariants.Conservation | internal/processor/order_processor.go:214-271 | in every run of one process, per key, accepted fills are those of the signals followed by those of the pending leg; sizes add up, and traded values for non-negative sizes |
| PipelineInvariants.ConservationOverRestarts | internal/processor/order_processor.go:214-271 | in every run with restarts, per key, accepted fills are, each as often, those of the signals, of the legs pending at a crash and of the pending leg; sizes add up, and traded values for non-negative sizes |
| PipelineInvariants.LegLeavesByPublicationOrCrash | internal/processor/order_processor.go:433-463 | in the whole pipeline, at any event but a restart, a leg that goes was published by that event with all its fills |
| OrderInvariants.LegLeavesOnlyByPublication | internal/processor/order_processor.go:433-463 | a leg that is pending before a step and not after was published by that step, as a sent row with all its fills |
| OrderInvariants.FlushSucceedsExactlyOnMappedDirections | internal/processor/order_processor.go:485-534 | a flush with publishing up takes a pending leg if and only if its direction is one of the six mapped ones |
| OrderInvariants.UnmappedLegStays | internal/processor/order_processor.go:485-534 | a leg of any other direction is still pending after every run |
| OrderInvariants.LegsAreAggregated | internal/processor/order_processor.go:214-267 | in every reachable state a leg lies under its own key, its total size is the sum of its fills, and the tids of all fills but the first are pairwise distinct and are the seen ones |
| OrderInvariants.RepeatAcceptedIff | internal/processor/order_processor.go:214-264 | in any state the invariant allows, a fill whose tid an unmarked pending leg holds is accepted if and only if that tid is the first fill's and no later fill has it |
| OrderInvariants.AcceptedIsCounted | internal/processor/order_processor.go:263-267 | whatever a pending leg accepts is appended to its fills and added to its size |
| OrderInvariants.AcceptedIff | internal/processor/order_processor.go:178-264 | in any state the invariant allows, a delivered fill is accepted and appended if and only if its leg's key bears no live mark and no fill of the pending leg after the first has its tid; otherwise the state is unchanged |
| OrderInvariants.AcceptedLeg | internal/processor/order_processor.go:206-271 | an accepted fill leaves its leg open or with its former status, last updated now, with the time of its first fill; the leg is persisted as it is, and no other leg changes |
| SignalContents.EverySignalSaysItsLeg | internal/processor/order_processor.go:485-534 | in every run of the processor every signal's side is SHORT exactly for an "Open Short" or "Close Short" leg and else LONG, its action close exactly for "Close Long", "Close Short", "Sell" and else open, its market spot exactly for "Buy", "Sell" and else futures; address, first stamp, total size and mean price are the leg's |
| SignalContents.EverySignalOfThePipeline | internal/processor/order_processor.go:485-534 | the same in every run of the pipeline with restarts |
| SignalContents.PublicationEffect | internal/processor/order_processor.go:423-463 | whatever step publishes is a flush of a waiting request whose leg is pending; the leg goes out with the request's status, is marked for thirty minutes, persisted as sent and removed, and nothing else changes |
| OrderInvariants.FirstFillCountsTwice | internal/processor/order_processor.go:214-233 | an explicit run: the creating fill delivered twice gives a leg with the fill twice and double its size; a third delivery changes nothing |
| OrderInvariants.WeightedMean | internal/processor/order_processor.go:353-365 | for non-negative sizes with a positive sum the leg's price times its size is the traded value, and lies between two of its fill prices |
| OrderInvariants.StepKeepsInv | internal/processor/order_processor.go:154-165 | every fill, status, flush, scan and tick keeps the invariant: legs aggregated, every published key marked for a TTL or past it, signals spaced, fills conserved |
| OrderInvariants.Reachable | internal/processor/order_processor.go:107-146 | the invariant holds after any run from the empty processor |
| OrderProjection.Projection | internal/processor/order_processor.go:320-350 | if addresses have no '-', or oids are not negative and directions have no '-', and none of its own requests was dropped: the part of the state that belongs to one (address, oid) after any run is what the order's own messages, flushes and scans and the clock do alone |
| OrderProjection.KeyDecidesOwner | internal/processor/order_processor.go:348-350 | under either way of naming a leg key belongs to exactly one order |
| OrderProjection.SliceStep | internal/processor/status_tracker.go:40-58 | one step shows in an order's part of the state as its own event, or not at all |
| OrderProjection.OnlyOwnMessages | internal/cache/dedup_cache.go:44-46 | at every point of the projected run the next event is a message of the order, a flush of a request of the order, a scan of the order's legs, or time passing |
| OrderProjection.DroppedRequestShows | internal/processor/order_processor.go:385-391 | with a full channel, queuing the order's request alone gives the order's part of the state if and only if everything that waits is its own |
| ChannelOverflow.FillsUp | internal/processor/order_processor.go:619-633 | a reachable full channel: a thousand scans over one timed-out leg that nobody flushes |
| ChannelOverflow.OverflowBreaksProjection | internal/processor/order_processor.go:385-391 | an explicit run of two orders, for any two named orders, in which the full channel drops the request that a terminal status makes, and the order's part of the state is not what the order does alone |
| FlushRequests.FlushedAtOnceIff | internal/processor/order_processor.go:189-200 | with room in the channel an accepted fill is requested for flushing if and only if a non-empty status of its order is on record, and the record is then used up |
| FlushRequests.ReversedSecondLegWaits | internal/processor/order_processor.go:277-282 | an explicit run: status, fill of one leg, fill of the other; only the first leg is requested, nothing is on record, the second leg is pending |
| FlushRequests.RunRequests | internal/processor/order_processor.go:320-345 | in any run without a terminal status of the order, starting with none on record, every new request of the order is the timeout scan's |
| RequestRules.StatusAsks | internal/processor/order_processor.go:320-345 | in any state, a terminal status without a direction requests the pending legs of its order in the six directions, in their order, the first ones as far as the channel has room; it is on record for ten minutes if and only if none was pending; any other status changes nothing |
| RequestRules.AskedIff | internal/processor/order_processor.go:328-336 | those requests are exactly the ones of the order's pending legs in the six directions |
| RequestRules.AskedOnce | internal/processor/order_processor.go:328-336 | no leg is requested twice by one status |
| RequestRules.StatusLeadsToSignal | internal/processor/order_processor.go:320-463 | after any run with room in the channel: once a terminal status has come and the request of a pending leg has been taken, with the publisher up, a signal of that leg has gone out since |
| RequestRules.ScanAsks | internal/processor/order_processor.go:619-633 | in any state, a scan requests the overdue legs among the visited ones in the order of the visit, the first ones as far as the channel has room, and does nothing else |
| RequestRules.OverdueIff | internal/processor/order_processor.go:619-633 | those requests are, once each, exactly of the visited legs that are pending, unsent and whose first fill is more than five minutes old |
| RequestRules.TimeoutLegIsOld | internal/processor/order_processor.go:619-633 | over every run: a waiting timeout request was made by a scan that visited its leg when that was overdue, and unless a signal of its key went out since, the leg it waits for is more than five minutes old |
| RequestRules.StepKeepsRequest | internal/processor/order_processor.go:394-420 | a waiting request stays until a flush takes it |
| FlushRequests.SecondLegNeedsTimeout | internal/processor/order_processor.go:619-633 | after that run the second leg is pending through every run without a scan and without a terminal status of the order |
| FlushWorkers.PublishedOnce | internal/processor/order_processor.go:423-463 | with look-up, building, publish, flag and removal as separate steps of any number of workers, a run in which no two flushes of one key are ever in flight publishes no leg twice |
| FlushWorkers.RaceRepublishes | internal/processor/order_processor.go:423-463 | from the first state with two of them in flight there is a continuation that publishes a leg twice |
| FlushWorkers.TwoWorkersPublishTwice | internal/processor/order_processor.go:394-420 | an explicit schedule of two workers that publishes one leg twice |
| FlushWorkers.SignalMissesIff | internal/processor/order_processor.go:250-267 | in such a run a signal carries the first fills of its leg, and all the leg ever accepts if and only if none was accepted between the building of the signal and the flag |
| FlushWorkers.FillInTheGap | internal/processor/order_processor.go:433-452 | from any state with a built signal (`BuiltAtOnce` reaches one): a fill that arrives now is accepted, flagged as sent and removed with its leg, and in no signal |
| Keys.OrderKeyInjective | internal/processor/order_processor.go:348-350 | two leg keys of dash-free addresses are equal only for the same address, oid and direction |
| Keys.TrackKeyInjective | internal/processor/status_tracker.go:40-44 | two tracker keys of dash-free addresses are equal only for the same order |
| Keys.PrefixDecidesOwner | internal/processor/order_processor.go:348-350 | a leg key starts with an order's prefix if and only if it is that order's |
| Keys.TrackKeyInjectiveOnOids | internal/processor/status_tracker.go:40-44 | two tracker keys with oids that are not negative are equal only for the same order, whatever the addresses |
| Keys.OrderKeyInjectiveOnOids | internal/processor/order_processor.go:348-350 | two leg keys with such oids and dash-free directions are equal only for the same leg, whatever the addresses |
| Keys.DashedAddressesCollide | internal/processor/order_processor.go:348-350 | a dash in an address and in a direction, or in an address and a negative oid, lets two keys collide |
| Decimal.DigitsRoundTrip | internal/processor/order_processor.go:348-350 | reading the printed digits of a number gives the number back |
| OrderProcessor.Processor.HandleOrderFill | internal/processor/order_processor.go:170-285 | the new state is the protocol's fill step: ignored if marked, sent or a seen tid, else created or appended, and flushed at once if the order's status came first |
| OrderProcessor.Processor.CalculateWeightedAvg | internal/processor/order_processor.go:353-365 | the loop computes the sum of sizes and the weighted mean, zero for a zero sum |
| OrderProcessor.Processor.UpdateStatus | internal/processor/order_processor.go:320-345 | the new state is the protocol's status step, which `StatusAsks` describes |
| OrderProcessor.Processor.TriggerFlush | internal/processor/order_processor.go:385-391 | a request is queued, or dropped when the channel is full |
| OrderProcessor.Processor.FlushOrder | internal/processor/order_processor.go:423-463 | the new state is the protocol's flush, which `PublicationEffect` and `EverySignalSaysItsLeg` describe: nothing without a leg, a signal or a successful publish, else published, marked, persisted and removed |
| OrderProcessor.Processor.ScanTimeoutOrders | internal/processor/order_processor.go:619-633 | the new state is the protocol's scan, which `ScanAsks` and `OverdueIff` describe, each pending key visited once, in some order |
| OrderProcessor.Processor.HandleMessage | internal/processor/order_processor.go:154-165 | one handled message is one step of the protocol |
| OrderProcessor.Processor.FlushWorker | internal/processor/order_processor.go:394-420 | a worker takes one waiting request, any of them, and flushes its key |
| Caches.DedupCache.IsSeen | internal/cache/dedup_cache.go:30-35 | a key is seen up to and including the expiry of its mark |
| Caches.DedupCache.LoadFromDB | internal/cache/dedup_cache.go:55-83 | a successful query marks every row for a full TTL, a failed one leaves the cache alone |
| Caches.ReloadedCache | internal/dao/order_aggregation.go:91-97 | a fresh cache loaded from the table is the one the restart of the pipeline starts with, for any order of the rows |
| Caches.MarkAllFinds | internal/cache/dedup_cache.go:71-75 | marking a list of keys marks each of them with one expiry and changes no other key |
| Caches.StatusTracker.Find | internal/processor/status_tracker.go:46-53 | the tracker finds the last marked status until it expires |
| PipelineSafety.NoFillCountedTwice | internal/manager/subscription_manager.go:327-391 | over any timely run with restarts: every fill of a signal that is not lost is stamped before every fill of a later signal for the same leg; lost is a signal whose key a restart left without a mark while one of its fills was fresh |
| ArrivalRules.OfferedFill | internal/manager/subscription_manager.go:327-381 | an offered fill is kept out if and only if it is older than thirty minutes at its message's reading or its leg's mark is live; otherwise it waits last in the queue, or is handled at once when ten thousand wait |
| ArrivalRules.OfferedStatus | internal/processor/message_queue.go:55-69 | a reported status waits last in the queue, or is handled at once when ten thousand wait |
| ArrivalRules.AcceptedWereFresh | internal/manager/subscription_manager.go:327-391 | over every run of the pipeline, every accepted fill was offered for its leg at a reading at most thirty minutes after its stamp |
| ArrivalRules.MarksAfterRestart | internal/cache/dedup_cache.go:55-83 | after a restart a key bears a mark if and only if the reload succeeds and finds a sent row of it whose last fill came in the last thirty minutes, to the second; the mark lasts thirty minutes from then |
| ArrivalRules.RestartForgets | cmd/hl_monitor/main.go:108-113 | of everything else only the logs and the table survive |
| ArrivalRules.Cleaned | internal/cleaner/cleaner.go:72-88 | the cleaner takes exactly the rows last updated before the second two hours ago |
| ArrivalRules.TableAfterRun | internal/processor/batch_writer.go:107-181 | over every run with restarts, failed writes and cleanings, the table holds nothing but, under each row, the last aggregation written for it successfully, and holds that unless its last update is past retention |
| PipelineSafety.StoredIsNotExposed | internal/cache/dedup_cache.go:55-83 | a signal whose sent row was stored is not lost at a restart whose reload succeeds |
| PipelineRestarts.RestartCountsAgainIff | cmd/hl_monitor/main.go:108-113 | after every timely run of dash-free addresses, for a signal not lost before: a restart lets one of its fills be counted again, in a timely continuation with no further crash, if and only if it loses the signal |
| PipelineRestarts.UnmarkedKeyPublishes | internal/manager/subscription_manager.go:364-381 | after a restart from any state at all that leaves a key without a mark, any fill of the key that passes the age filter is published at once |
| PipelineSafety.ReplaySafety | internal/processor/order_processor.go:178-187 | without restarts, no fill is in two signals of one leg |
| PipelineSafety.StepIsSafe | internal/cache/dedup_cache.go:55-83 | every timely arrival, handled message, flush, tick, write, cleaning and restart keeps the shield: a sent fill's leg is marked, or its row will be reloaded, or the fill is too old |
| PipelineSafety.RunIsSafe | internal/cleaner/cleaner.go:72-88 | the shield holds after any timely run, cleaning and restarts included |
| PipelineSafety.WindowsMeet | internal/manager/subscription_manager.go:327-339 | a fill can pass an age filter whose dedup check comes within the lag, but after the mark made at m expired, if and only if its stamp is not below the millisecond of m + 1 moved back by the lag |
| PipelineLimits.UntimelyFillReplays | internal/manager/subscription_manager.go:327-391 | for any lag and any fresh fill stamped too late for it, an explicit run that keeps the other two trusts and publishes the fill twice |
| PipelineLimits.LateCheckReplays | internal/manager/subscription_manager.go:364-381 | for a fill stamped early enough for the lag, an explicit run with one dedup check later than the lag that keeps the other two trusts and publishes the fill twice |
| PipelineLimits.UnwrittenRowReplays | internal/processor/batch_writer.go:107-129 | an explicit timely run: crash before the sent row is written, whether or not the reload succeeds; the fill is published twice |
| PipelineLimits.FailedReloadReplays | cmd/hl_monitor/main.go:108-113 | an explicit timely run: the sent row is stored, the reload after the crash fails; the fill is published twice |
| PipelineLimits.SlowQueueReplays | internal/processor/message_queue.go:35-52 | an explicit run that keeps the other two trusts: a copy that waits longer than the TTL is published a second time |
| SubscriptionManager.Manager.HandleWsOrderFills | internal/manager/subscription_manager.go:321-392 | one message reads the clock for its age filter, after some time has passed, and again for each dedup check, and offers some schedule that holds, per leg, exactly the shares of the fills that are at most thirty minutes old at that first reading and of no foreign market, in order of arrival; the user owns exactly the orders of such fills from then on |
| SubscriptionManager.Manager.HandleWsOrderUpdates | internal/manager/subscription_manager.go:225-318 | one callback's work on one message is one stretch of the broadcast: it reports the statuses and forgets the oids that the ownership theorem speaks about, in order |
| Schedules.CallbackGrows | internal/manager/subscription_manager.go:225-318 | one more order of the message extends the stretch by exactly its own effect |
| SubscriptionManager.Manager.HandleNext | internal/processor/message_queue.go:40-52 | the worker's turn is the pipeline's step on the oldest message |
| SubscriptionManager.Manager.FlushNext | internal/processor/order_processor.go:394-420 | a worker's flush of any waiting request is the pipeline's flush step |
| SubscriptionManager.Manager.ScanTimeouts | internal/processor/order_processor.go:603-633 | the scanner's tick is the pipeline's scan of every pending leg in some order |
| SubscriptionManager.Manager.EnqueueMessage | internal/processor/message_queue.go:55-69 | a message is queued, or handled at once when the queue is full |
| SubscriptionManager.Manager.SubscribeAddress | internal/manager/subscription_manager.go:114-222 | an address is on the list after the call in any case; a new one gets two routed keys and its two handles, or, when a dial or a send fails, no handle and no route of its fills; a known one changes nothing |
| SubscriptionManager.ChannelKeys | internal/ws/types.go:47-55 | the two keys of an address are its name after "userFills:" and "orderUpdates:" |
| SubscriptionManager.Manager.UnsubscribeAddress | internal/manager/subscription_manager.go:124-152 | the address goes with its two handles and the keys they route, and the owner of every order is forgotten |
| SubscriptionManager.SubscribedAndBack | internal/manager/subscription_manager.go:114-152 | subscribing and unsubscribing an address whose keys nobody else has leaves list, handles and routes as they were, but no owner of any order |
| SubscriptionManager.FailureIsKept | internal/manager/subscription_manager.go:114-121 | after a subscription that failed a second call succeeds and subscribes nothing |
| Schedules.LegParts | internal/manager/subscription_manager.go:352-365 | splitting per order and then by direction gives the same legs, in the same order, as splitting the whole message |
| Schedules.WholeSchedule | internal/manager/subscription_manager.go:356-391 | orders and directions taken in any order schedule every leg's parts in order of arrival, and nothing else |
| Schedules.MessageOffers | internal/manager/subscription_manager.go:327-391 | a schedule of the fills that pass holds, per leg, exactly the shares of its order's fills that are young enough and of no foreign market |
| Schedules.MessageOwners | internal/manager/subscription_manager.go:358-360 | exactly the orders of such fills change their owner |
| Schedules.ForgottenOwnersSilenceUpdates | internal/manager/subscription_manager.go:143-146 | once the owners are forgotten, no interleaving of updates enqueues anything |
| Broadcast.Ownership | internal/ws/dispatcher.go:95-118 | under any interleaving of callbacks, order by order, an order is enqueued once, for its owner, with the first terminal status that callback meets, or never; the oid is forgotten exactly when it is enqueued |
| Broadcast.BroadcastOwnership | internal/ws/dispatcher.go:95-118 | one message given to every subscribed address: a terminal order of a subscribed owner is enqueued exactly once, any other never |
| UpdateRaces.StepsAreDeliveries | internal/manager/subscription_manager.go:225-318 | with check, enqueueing and forgetting as separate steps of any number of callbacks: a run in which no two callbacks are ever at one order is, up to what is under way, a run of whole deliveries |
| UpdateRaces.OwnershipWithoutRaces | internal/manager/subscription_manager.go:244-312 | so in it every order is enqueued at most once, and with no callback under way exactly as the ownership theorem says |
| UpdateRaces.RaceEnqueuesTwice | internal/manager/subscription_manager.go:292-312 | from the first state with two callbacks at one order there is a continuation that enqueues it twice |
| UpdateRaces.TwoChecks | internal/ws/dispatcher.go:112-118 | an explicit schedule: one order delivered to its owner twice at once is enqueued twice |
| Broadcast.OnlyStatuses | internal/manager/subscription_manager.go:292-308 | nothing but order statuses without a direction is ever enqueued by updates |
| Broadcast.ForeignCoinIff | internal/manager/subscription_manager.go:232-242 | a coin is skipped if and only if it has a colon and does not start with "xyz:" |
| ReversalSplit.SplitReversedOrder | internal/manager/subscription_manager.go:444-503 | the loop gives a group to exactly the directions some fill has a share in, holding those shares in order: "Long > Short" has the whole old position in "Close Long" and what it has beyond it in "Open Short", "Short > Long" the same in "Close Short" and "Open Long", any other fill itself in its own direction |
| ReversalSplit.ReversalParts | internal/manager/subscription_manager.go:462-503 | a reversal fill becomes one close part of the old side, of the size of the old position, and one open part of the new side, of what the fill has beyond it or zero; all else is unchanged |
| ReversalSplit.NoReversalLeft | internal/manager/subscription_manager.go:444-459 | no part has a reversal direction, and each stems from a fill |
| ReversalSplit.GroupHoldsItsDirection | internal/manager/subscription_manager.go:444-459 | a group holds exactly the parts of its direction, in order of arrival |
| ReversalSplit.SplitConservesSize | internal/manager/subscription_manager.go:462-478 | the parts' sizes sum to the fills' sizes if and only if every reversal fill covers its start position, and never to less |
| ReversalSplit.GroupsConserveSize | internal/manager/subscription_manager.go:444-478 | the same for the sums over the groups |
| BatchProtocol.OverlayExceptLost | internal/processor/batch_writer.go:107-181 | after any run, with any flushes failing, the table overlaid by buffer and queue differs from every accepted item upserted in order under exactly the lost rows, and the buffer is below the batch size |
| BatchProtocol.EverythingKept | internal/processor/batch_writer.go:107-181 | the two are equal if and only if no row is lost |
| BatchProtocol.RefinesSequentialUpserts | internal/processor/batch_writer.go:107-181 | so after any run without a failing flush they are equal |
| BatchProtocol.StopWritesEverything | internal/processor/batch_writer.go:262-276 | after Stop the table alone is that, and queue and buffer are empty |
| BatchProtocol.StopInAnyOrder | internal/processor/batch_writer.go:131-143 | however the flush loop's flushes interleave with the drain, the final flush leaves the same tables |
| BatchProtocol.FailedFlush | internal/processor/batch_writer.go:160-181 | for any buffer and queue, a flush with failing tables loses nothing if and only if each item of a failed table is in the table already or is about to be replaced from the queue |
| BatchProtocol.FailureStaysInItsTable | internal/processor/batch_writer.go:160-175 | a failing table loses rows of its own kind only |
| BatchProtocol.RowKeyInjective | internal/processor/batch_writer.go:32-50 | equal dedup keys mean the same row, for addresses without ':' |
| BatchProtocol.OrderDedupKeyInjectiveOnDirections | internal/processor/batch_writer.go:45-50 | two order keys with colon-free directions are equal only for the same row, whatever the addresses |
| BatchProtocol.ColonAddressesCollide | internal/processor/batch_writer.go:45-50 | a colon in one row's address and in the other's direction lets two rows share a dedup key |
| BatchProtocol.UpsertDistinct | internal/dao/order_aggregation.go:100-113 | a batch of pairwise distinct rows leaves every one of its items in the table |
| BatchWriter.BatchWrites | internal/processor/batch_writer.go:151-168 | upserting a table's batch, in any order of the buffer, writes exactly that table's buffered items |
| BatchWriter.Batcher.Collect | internal/processor/batch_writer.go:151-166 | each batch holds the table's buffered items, no two for the same conflict key; the keys to delete are those of the named tables |
| BatchWriter.Batcher.FlushAll | internal/processor/batch_writer.go:145-202 | with nothing stored in between, the loops write each table's batch unless it fails and delete all of them, as the protocol's flush |
| BatchSteps.OverlayExceptLost | internal/processor/batch_writer.go:107-181 | with collect, the upserts and delete as separate steps of any number of flushes, between which the receive loop stores: in any run the overlay differs from the accepted items upserted in order under exactly the lost rows, those whose item a delete drops though the table has another and nothing queued replaces it, or that an upsert sets back to an item replaced since |
| BatchSteps.EverythingKept | internal/processor/batch_writer.go:107-181 | the two are equal if and only if no row is lost |
| BatchSteps.DropsNothingIff | internal/processor/batch_writer.go:177-181 | the delete of a flush whose upserts all succeeded drops nothing if and only if every collected item is still the buffered one or something queued replaces it |
| BatchSteps.FlushInOneGo | internal/processor/batch_writer.go:145-181 | the steps with nothing in between are the protocol's flush, whatever tables fail |
| BatchSteps.StoredInBetween | internal/processor/batch_writer.go:107-119 | an explicit run: an item stored between collect and delete is accepted and in no table, buffer or queue afterwards |
| BatchSteps.WrittenOver | internal/processor/batch_writer.go:131-143 | an explicit run of two flushes that leaves the older of two items in the table and the newer nowhere |
| BatchWriter.Batcher.Receive | internal/processor/batch_writer.go:107-119 | one received item is stored under its key, and the buffer flushed when it reaches the batch size, with any upserts failing |
| BatchWriter.Batcher.Add | internal/processor/batch_writer.go:252-259 | an item is accepted if and only if the queue has room |
| BatchWriter.Batcher.Stop | internal/processor/batch_writer.go:262-276 | the drain and the final flush do the protocol's Stop |
| GracePeriod.SubscribedSet | internal/address/loader.go:83-159 | after any loads the subscribed set is the known set, the latest snapshot with the pending ones; an address is in it exactly when its history says so |
| GracePeriod.UnsubscribedExactlyOnExpiry | internal/address/loader.go:101-121 | a load unsubscribes an address if and only if it was absent from every snapshot since a first absence at least the grace before, and no load in between had noticed |
| GracePeriod.SubscribedExactlyWhenNew | internal/address/loader.go:90-99 | a load subscribes an address if and only if it is present and was not wanted before |
| GracePeriod.ShortFlapsAreSilent | internal/address/loader.go:90-121 | an absence noticed for less than the grace causes no call at all, from the first missing load to the return |
| AddressSync.AddressLoader.LoadAndSync | internal/address/loader.go:75-159 | the loops do the model's sync on the maps and on every subscriber, whether or not their calls fail; a failed load changes nothing |
| ConnectionPool.PoolManager.Subscribe | internal/ws/pool_manager.go:156-205 | a routed key gains a callback; a new one is routed to the chosen connection and listed there; a failed dial or send leaves the table as it was, and fails only then; it crashes exactly for a new key on an empty pool that may not grow; a connection is made exactly for a new key when the pool may grow and the dial succeeds; no other listing changes |
| ConnectionPool.PoolManager.Unsubscribe | internal/ws/pool_manager.go:213-242 | the key goes with all callbacks; only a live connection loses its listing |
| RoutingTable.OthersSurviveIff | internal/ws/pool_manager.go:226-231 | giving up a handle leaves the callbacks of all other handles if and only if its key has no other one |
| PoolRuns.SecondCallbackLost | internal/ws/pool_manager.go:213-242 | an explicit run: of two callbacks of one key the first is given up, and the table is as before both |
| ConnectionPool.PoolManager.LeastLoadedConnection | internal/ws/pool_manager.go:285-311 | the loop finds the first of the least loaded live connections, the first of all when none is live, and none in an empty pool |
| ConnectionPool.PoolManager.AcquireConnection | internal/ws/pool_manager.go:244-262 | an offered pooled connection, or a new unpooled one exactly when no live connection has room and the pool may grow, failing exactly when its dial does; none from an empty pool that may not grow |
| RoutingTable.ChoiceIsUnique | internal/ws/pool_manager.go:244-262 | at most one pooled connection is the right choice, and none when a new one may be made |
| RoutingTable.ChosenServes | internal/ws/pool_manager.go:244-311 | the choice is the first live connection with a place, or without one a live one that carries least, the first of those, if any is live |
| RoutingTable.CreatesExactly | internal/ws/pool_manager.go:256-257 | a new connection may be made if and only if no live one has a place and the pool is below its cap |
| RoutingTable.KeyInjective | internal/ws/types.go:47-55 | two subscriptions share a key if and only if they are of one channel and one target |
| PoolRuns.DialsForEveryKey | internal/ws/pool_manager.go:244-262 | from any state of a pool without room that may grow, every further new key dials, one connection for each dial that succeeds, and the pool still has no room and may still grow |
| PoolRuns.SubscribeEach | internal/ws/pool_manager.go:244-283 | from a started pool with every dial and send succeeding: the number of live connections after n new keys, exactly |
| PoolRuns.CapHoldsIff | internal/ws/pool_manager.go:256-257 | that number is within `maxConnections` if and only if the cap is one, or n is below the room of one connection plus the cap |
| ConnectionPool.PoolManager.MigrateAndResubscribe | internal/ws/pool_manager.go:404-439 | exactly the keys routed to the old connection move, whatever stale entries it lists, and exactly those are listed on the new one |
| ConnectionPool.PoolManager.RepairConnections | internal/ws/pool_manager.go:354-401 | lost pooled connections are replaced up to the first failed dial, their keys rerouted and listed, every old connection and every other key untouched; after success all keys are live if and only if each one's connection was live or pooled |
| RoutingTable.NothingLeftBehind | internal/ws/pool_manager.go:415-430 | after rerouting no key is on a replaced connection, and a key of any other connection is unchanged |
| RoutingTable.OneMoreReplaced | internal/ws/pool_manager.go:361-398 | replacing one more connection moves exactly its keys: the rerouted tables compose |
| ConnectionPool.PoolManager.LiveExactly | internal/ws/pool_manager.go:354-401 | after a full repair every key is live if and only if its connection was live or pooled |
| PoolRuns.OrphanStaysDead | internal/ws/pool_manager.go:244-283 | an explicit run in which a successful repair leaves a key on a dead connection |
| NonceProtocol.NoncesIncrease | pkg/go-hyperliquid/exchange.go:61-76 | for any threads, interleaving and clock, nonces strictly increase in publication order, above the initial value |
| NonceProtocol.NoncesAreBounded | pkg/go-hyperliquid/exchange.go:61-76 | the n-th nonce is at most the largest of the initial value and the clock readings, plus n |
| NonceProtocol.NonceFollowsClock | pkg/go-hyperliquid/exchange.go:61-76 | every nonce is the clock reading of its own attempt if that is above the previous nonce or the initial value, and otherwise one more than that |
| NonceProtocol.LoggedReading | pkg/go-hyperliquid/exchange.go:64-69 | the reading that counts is the thread's last one, taken after its last load |
| NonceProtocol.FailureMeansProgress | pkg/go-hyperliquid/exchange.go:69-74 | a failed compare-and-swap means that a larger nonce was published since the load |
| NonceProtocol.LoadedIsPublished | pkg/go-hyperliquid/exchange.go:62-66 | what a thread has loaded is the initial value or a published nonce |
| ConcurrentMap.CounterAgreement | pkg/concurrent/map.go:34-98 | under any interleaving the map's size is the counter plus the adjustments not yet applied plus the entries that an overwriting Store re-inserted |
| ConcurrentMap.LenIsExact | pkg/concurrent/map.go:17-21 | with no call in flight, the counter is the map's size if and only if at no step of the schedule a Store made its second write on a key that was gone |
| ConcurrentMap.RemovedUnderStore | pkg/concurrent/map.go:34-41 | before every such step the key was removed by a delete after the Store had found it |
| ConcurrentMap.LenIsExactWithoutStore | pkg/concurrent/map.go:46-98 | without Store the counter is exact whenever no call is in flight |
| ConcurrentMap.CallAlone | pkg/concurrent/map.go:34-104 | a call that no other overlaps changes the map as the map of values it stands for, counts what it changed and nothing else |
| ConcurrentMap.ValueStays | pkg/concurrent/map.go:46-104 | under any interleaving a value stays through every LoadOrStore and every comparison with another value, so the first LoadOrStore wins |
| ConcurrentMap.StoreRacesDelete | pkg/concurrent/map.go:34-41 | an explicit run that ends with one entry and a counter of zero |
| Rounding.RoundToSignificantFigures | pkg/go-hyperliquid/utils.go:66-116 | the loops terminate for every price and compute the specified rounding |
| Rounding.MultiplyUp | pkg/go-hyperliquid/utils.go:103-107 | the multiply-by-ten loop terminates, and counts the factors it used |
| Rounding.RelativeError | pkg/go-hyperliquid/utils.go:66-116 | on every branch the error is at most the price times 10^(1 - sigFigs) |
| Rounding.ShiftIsProduct | pkg/go-hyperliquid/utils.go:12-15 | shifting by k places is the product with 10^k, for any integer k |
| Rounding.NearestMultiple | pkg/go-hyperliquid/utils.go:88-115 | the result is a multiple of the unit of the last figure, no multiple is closer and of two equally close ones it is the one further from zero; or it is the integer part when that has enough digits |
| Rounding.SignPreserved | pkg/go-hyperliquid/utils.go:71-115 | the result has the sign of the price, and is zero for zero only |
| Rounding.Idempotent | pkg/go-hyperliquid/utils.go:66-116 | rounding a rounded price changes nothing, a carry to the next power of ten included |
| Wire.AcceptedExactly | pkg/go-hyperliquid/utils.go:40-54 | the conversion succeeds if and only if some eight-decimal number is within 10^-12 of the input |
| Wire.WireRoundTrip | pkg/go-hyperliquid/utils.go:40-64 | reading the text gives the eight-decimal value, within 10^-12 of the input |
| Wire.WireIsCanonical | pkg/go-hyperliquid/utils.go:56-63 | the text has no superfluous zero on either side, no trailing point and is not "-0" |
| Wire.SameTextIff | pkg/go-hyperliquid/utils.go:40-64 | two accepted inputs get the same text if and only if their eight-decimal values are equal |
| Wire.PrintUndoesRead | pkg/go-hyperliquid/utils.go:40-64 | every canonical numeral is what its own value prints as, so the texts are exactly the canonical numerals |

## Left out

- Order processor granularity: one handled message, flush or scan is one step at one clock reading. `FlushWorkers` takes a flush apart, over legs, their fills and requests; times, statuses and marks are not in it, and the whole pipeline is not proved over those steps.
- OrderProcessor.Processor.HandleOrderFill: the timeout is the constant five minutes, not what SetTimeout may set; CreatedAt, metrics and the symbol conversion are not state of the model.
- Signals carry address, market, direction, side, size, price and time; symbol, position rate and close rate are lookups in caches that are not part of this model.
- Batch items are handed to the writer as values; in the program a queued aggregation is a pointer that later fills still update.
- BatchWriter.Batcher.FlushAll: is the flush with nothing stored in between; what stores and other flushes in between do is `BatchSteps`, where the look at each buffered item is one step and the upsert of a table another.
- BatchWriter.Batcher.Stop: drains first and flushes then; the flush loop's own flushes in between are `StopInAnyOrder`.
- Pipeline.PipeStep takes rows to the table one by one in order; that the batch writer gives the same table is `RefinesSequentialUpserts`, but the two are not composed into one machine.
- OrderProjection.Projection: excludes runs that drop one of the order's own requests, because the capacity of the flush channel is shared by all orders (`DroppedRequestShows`, `OverflowBreaksProjection`).
- Broadcast.Ownership: look-up, enqueue and delete of one order are one step; `UpdateRaces` takes them apart, without the fills that may map an oid again meanwhile.
- SubscriptionManager.Manager.SubscribeAddress: is one step; a crash of the pool ends the program, so what it leaves behind is not modelled.
- Restart of the manager: a new process is a new manager with a loaded cache; the restart is an event of the pipeline and not a method.
- Nonces and the concurrent map are step machines and not classes, because each atomic operation is a step of its own; SetLastNonce, Clear and Range are left out.
- Integer widths: 64-bit overflow of nonces, clocks and oids, and prices of 2^63 or more in the digit count, are not modelled.
- Rounding.RelativeError: is about real numbers; the rounding of IEEE doubles and of math.Pow is not modelled.
- Wire.WireRoundTrip: reads a numeral exactly, where the program gets the nearest double.
- ConnectionPool.PoolManager.Subscribe: is one step, so the second look-up of the key inside it, which only concurrent calls can meet, is not there; what a crash leaves behind is not modelled, as it ends the program.
- ConnectionPool.PoolManager.RepairConnections: is one step; a failed resubscribe is only logged in the program and changes no table; the backoff around it is not modelled.
- The janitor of the TTL cache: it only removes entries that lookups no longer find.
- Web sockets, JSON, NATS, metrics, logging, configuration and signing: input and output without an invariant of their own.
