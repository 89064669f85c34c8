# CrashCore, modelled in Dafny

CrashCore is a C++ service: it ingests crash-game events, asks for predictions, settles them when a round ends and
delivers notifications. Most of it is plumbing around a few small state machines, and those state machines are what
this project models. Each is stated twice where the original changes state in place: as an object (a class with the
original's fields and one method per call or per atomic access), and as a specification on values (a state, the steps
that may happen, and what every run of those steps keeps). The methods are proved against the specification's
functions, the guarantees are proved about its runs.

Check everything with `dafny verify dfyconfig.toml`.

## How the model is built

**Lock-free queues.** `MpscMachine` and `SpscMachine` give every thread a program counter and make each atomic load,
store or compare-and-swap one step, under sequential consistency; a weak compare-and-swap may fail for no reason. The
objects `MpscQueue` and `SpscQueue` perform exactly those accesses on arrays, and `MpscCalls` says what whole calls
answer. `RingMask` defines `x & mask` bit by bit and proves that it is reduction modulo the capacity, on 64-bit words
where subtraction wraps. `BoundedQueue` is the mutex-guarded ring; each locked section is one call.

**Outbox.** `OutboxMachine` interleaves any number of publishers and delivery workers between locked sections:
reserving a key, taking an id, pushing, rolling back, claiming, marking. `LeaseMachine` adds leases, late workers and
recoveries, and `LeaseDelivery` counts what they deliver. The objects are `OutboxQueue`, `Outbox`, `OutboxWorker` and
`OutboxLifecycle`.

**Recency windows.** `Recency` states what a window should hold as a function of the whole history, and what a linked
list with a map of node references must keep: nodes carry an identity, so that "the map points at its own node" means
something while nodes move. `RecentRoundCache`, `EventRouter`, `DuplicateFilter` and `LiveValidator` are proved against
it; `Routers` also follows the router's counters over whole runs.

**Settlement.** `Registry` and `PredictionRegistry` hold the two indexes, `Settlements` the runs of registrations, ends
and expiries, `Validators` the matcher and the validator, `Attempts` and `Coordinators` the prediction attempts behind
their generation fence. A call of an object that nothing interrupts is a run of the interleaved calls
(`Validators.EndIsARun`, `Coordinators.CompleteIsARun`, and for the outbox `OutboxMachine.PublishIsARun`,
`Outboxes.WorkIsARun` and `LeaseRecovery.RecoveryIsARun`).

**Lease row, batch writer, replay, statistics.** `LeaseRows` models the three SQL statements on one row and any number
of supervisors. `BatchWriters` compares the batching writer, and any other thread that flushes it, with one that writes
every item at once. `Replays` is the file format byte by byte. `CrashStats` compares streaming statistics with their
definitions over the whole list.

Conventions: the clock is an argument; doubles are `real`; strings are sequences of characters; 64-bit counters and
ring positions are unbounded (only `RingMask` treats the wrap of a word, where `size_approx` depends on it); a wait on a
condition variable is modelled at its wake-up; the order in which a hash map is walked is arbitrary; what a database, a
sink or a client answers is an argument. Where a call reads the clock more than once without the order mattering, it
gets one reading.

## Where the code does not do what its comments, or a reader, might expect

The model follows the code; each of these is proved.

- `Outbox` calls its delivery exactly-once per key. At most once holds for up to 50,001 deliveries
  (`OutboxMachine.AtMostOnce`); the delivery that pushes the set of delivered keys past 50,000 forgets all of them, and
  a run of 50,002 deliveries can repeat a key (`OutboxMachine.TwiceBeyondTheLimit`).
- An item that is put back onto a full queue is lost and its key stays reserved for good (`OutboxMachine.ItemLost`,
  `OutboxMachine.LostForever`). This is the only way to lose one: every other reserved key still has an item queued or
  with a thread (`OutboxMachine.LostMeansStranded`, `OutboxMachine.LostExactlyWhenRequeueFindsFull`).
- On the lease path a key is delivered at most once, up to the same 50,001 deliveries and however many leases expire,
  unless a worker and a recovery race for one item (`LeaseDelivery.AtMostOnceUnlessRaced`). There are two ways to race,
  and either alone is enough to deliver twice: the worker settles an item that a recovery has already collected
  (`LeaseDelivery.TwiceWhenLate`), or a recovery collects an item that its worker has settled but whose lease it has not
  erased yet, for `completeDelivered` does the two under different locks (`LeaseDelivery.TwiceWhenEarly`). A worker that
  never comes back is no race (`LeaseDelivery.CrashedWorkerIsReplaced`).
- A recovery counts two attempts per item, and an item that reaches the limit on its lease is marked delivered before it
  is dead-lettered (`OutboxLeases.BuriedKey`).
- `EventRouter::route` says it returns false only if all queues are full. It returns false exactly when an end event
  that is not a duplicate finds the validation or the prediction lane full; the persistence lane never counts, and is
  counted as routed even when it is full (`Routers.EventRouter.Route`, `Routers.OneFullLaneRefuses`).
- A completion checks the fence and finishes under a lock the fence does not share, so an attempt that has passed its
  check completes although it was superseded in between (`Attempts.OvertakenAfterItsCheck`). No other superseded attempt
  does, until its target's fence is cleared (`Attempts.SupersededCompletesIff`). A clear revives a superseded attempt
  (`Attempts.RevivedByClear`) and lets completed generations fall (`Attempts.FallsAfterClear`); from the clear on they
  rise again (`Attempts.CompletedGenerationsRise`).
- `LiveValidator::onGameEnd` releases its lock between accepting an end and taking the round, so a prediction registered
  in between is settled by an end accepted before it (`Settlements.SettledByEarlierEnd`), and only such a prediction is
  (`Settlements.SettledByEarlierEndIff`).
- `LiveSupervisor::acquire` claims authority whatever its statement did. The row backs the claim exactly when the
  statement wrote it, the row was not lost before the read-back, and the read-back gave its epoch, or the counted-up
  epoch happens to be the row's (`LeaseRows.AuthorityIsBackedIff`); a row that was free can be lost before the read
  (`LeaseRows.LostBeforeTheRead`).
- Two workers can have authority under one epoch. They cannot if every acquire reads back a row of its own and no
  release deletes one (`LeaseRows.OneAuthorityPerEpoch`); each condition alone is not enough. An acquire that meets
  another's live row claims authority all the same (`LeaseRows.TwoAuthorities`), and a release deletes the row before
  it drops its authority, so that the next owner starts at epoch 1 again (`LeaseRows.TwoAuthoritiesByRelease`).
- The epochs of the lease row rise, and stale ones match nothing, for as long as no release deletes the row
  (`LeaseRows.RowStaysIff`, `LeaseRows.EpochsRise`, `LeaseRows.StaleEpochHasNoEffect`); after one that does, an old
  epoch matches again (`LeaseRows.ReleaseRestartsEpochs`).
- A renewal compares the owner but not the epoch it reads back, so it can succeed without having extended the row
  (`LeaseRows.RenewedInVain`).
- `BatchWriter::flush` may be called by any thread. Every item is still attempted once
  (`BatchWriters.EachAttemptedOnce`), but a call that drains the queue while the worker holds an item overtakes it
  (`BatchWriters.FlushOvertakes`). The order is kept in every run in which no step overtakes
  (`BatchWriters.BatchedIsDirect`), so in every run without such calls (`BatchWriters.AloneNeverOvertakes`).
- The registry's indexes stay in agreement exactly as long as no id is registered while it is pending for another round
  (`Registries.PredictionRegistry.RegisterPrediction`).
- A recording reads back whole exactly when no frame is over 16 MiB (`Replays.ReadsBackIff`): `writeFrame` has no limit
  and cuts the length to 32 bits.

## Model

| member | source | states |
|---|---|---|
| RingMask.MaskIsModulo | include/concurrency/mpsc_queue.hpp:20-21 | masking with capacity - 1, defined bit by bit, is reduction modulo a power-of-two capacity |
| RingMask.SlotDistance | include/concurrency/spsc_queue.hpp:47-51 | the masked difference of two slot indices is the number of positions between them, also when the 64-bit subtraction wraps |
| RingMask.RoundUpCapacity | include/concurrency/spsc_queue.hpp:13-17 | the constructor's doubling loop yields the least power of two that is at least 2 and at least the request |
| RingMask.SharedSlot | include/concurrency/mpsc_queue.hpp:32 | two positions share a slot only if they are at least a whole lap apart |
| MpscMachine.StepKeepsInv | include/concurrency/mpsc_queue.hpp:29-60 | every atomic access of every thread keeps the inductive invariant of the slot ring |
| MpscMachine.FirstInFirstOut | include/concurrency/mpsc_queue.hpp:29-60 | under every interleaving the popped items are a prefix of the items in the order of the tail's compare-and-swaps, at all times |
| MpscMachine.PushFailsExactlyWhenFull | include/concurrency/mpsc_queue.hpp:33-43 | a push gives up exactly when its position is the tail and all capacity positions behind it are unreleased |
| MpscMachine.PopFailsExactlyWhenUnpublished | include/concurrency/mpsc_queue.hpp:53-54 | a pop answers empty exactly when the head position is not published |
| MpscMachine.SlotSequenceCycle | include/concurrency/mpsc_queue.hpp:38-56 | the number in slot p & mask only ever goes p, p+1, p+cap |
| MpscMachine.NoOverwriteBeforeRead | include/concurrency/mpsc_queue.hpp:37 | data is written only over items the consumer has taken |
| MpscMachine.NoReadBeforeWrite | include/concurrency/mpsc_queue.hpp:55 | what the consumer moves out is the item claimed for the head position, completely written |
| MpscMachine.PushSucceedsInPlace | include/concurrency/mpsc_queue.hpp:36-40 | a successful push left its item, published and not yet popped, at the position it claimed |
| MpscMachine.LosingMeansSomeoneWon | include/concurrency/mpsc_queue.hpp:36 | a compare-and-swap that does not fail spuriously loses only to a claim of the same position |
| MpscMachine.DrainedMeansAllPopped | include/concurrency/mpsc_queue.hpp:50-54 | with no push half done, an empty pop means every claimed item was popped |
| MpscMachine.SequenceTells | include/concurrency/mpsc_queue.hpp:33-46 | what the sign of sequence minus position tells a producer, whatever the other threads do |
| MpscCalls.PopAnswers | include/concurrency/mpsc_queue.hpp:50-60 | over any run, a pop answers with the item claimed for the head at its store of the head, with nothing at its sequence load, and nowhere else |
| MpscCalls.AnswersAreFifo | include/concurrency/mpsc_queue.hpp:29-60 | what try_pop has answered so far, in order, is a prefix of the items lined up at the tail |
| MpscCalls.PushAnswers | include/concurrency/mpsc_queue.hpp:29-48 | a push answers true at its sequence store, false at its sequence load, and nowhere else |
| MpscCalls.PushLinesUp | include/concurrency/mpsc_queue.hpp:36 | what a winning compare-and-swap lines up is the item its push was called with |
| MpscCalls.PushPublishes | include/concurrency/mpsc_queue.hpp:37-40 | a push that answers true has published the item it was called with |
| MpscCalls.PushIsARun | include/concurrency/mpsc_queue.hpp:29-48 | a push that nothing interrupts succeeds, and lines up its item, exactly when a position behind the tail has been released |
| MpscCalls.PopIsARun | include/concurrency/mpsc_queue.hpp:50-60 | a pop that nothing interrupts answers with the item at the head if it is published, and with nothing otherwise |
| MpscQueues.MpscQueue.constructor | include/concurrency/mpsc_queue.hpp:17-27 | a fresh ring is a valid start of the machine with the rounded-up capacity |
| MpscQueues.MpscQueue.ProducerAccess | include/concurrency/mpsc_queue.hpp:29-48 | one atomic access by a producer, on the arrays, is one step of the machine |
| MpscQueues.MpscQueue.ConsumerAccess | include/concurrency/mpsc_queue.hpp:50-60 | one atomic access by the consumer, on the arrays, is one step of the machine |
| MpscQueues.MpscQueue.Interleave | include/concurrency/mpsc_queue.hpp:29-60 | the accesses of a schedule that are possible when their turn comes form a run of the machine from the old state of the object to the new one |
| SpscMachine.RefinesFifo | include/concurrency/spsc_queue.hpp:21-45 | each access of the masked ring is a step of a FIFO queue of capacity cap-1 with its answer; a refused push saw cap-1 items, a refused pop saw none, other accesses answer nothing |
| SpscMachine.IndexTests | include/concurrency/spsc_queue.hpp:23-24 | the test next == head means exactly cap-1 items, head == tail exactly none |
| SpscMachine.RunIsFifo | include/concurrency/spsc_queue.hpp:21-45 | over any run what was popped is a prefix of what was pushed |
| SpscMachine.SizeIsLength | include/concurrency/spsc_queue.hpp:47-51 | with both threads at rest, size_approx on 64-bit words is the true length |
| SpscQueues.SpscQueue.constructor | include/concurrency/spsc_queue.hpp:13-19 | a fresh ring is a valid start of the machine |
| SpscQueues.SpscQueue.ProducerAccess | include/concurrency/spsc_queue.hpp:21-37 | one access by the producer, on the array, is one step of the machine |
| SpscQueues.SpscQueue.ConsumerAccess | include/concurrency/spsc_queue.hpp:39-45 | one access by the consumer, on the array, is one step of the machine |
| SpscQueues.SpscQueue.TryPush | include/concurrency/spsc_queue.hpp:21-37 | a push that nothing interrupts appends its item exactly when fewer than cap-1 are queued, and says so |
| SpscQueues.SpscQueue.TryPop | include/concurrency/spsc_queue.hpp:39-45 | a pop that nothing interrupts removes and answers the oldest item, or nothing |
| SpscQueues.SpscQueue.SizeApprox | include/concurrency/spsc_queue.hpp:47-51 | the masked difference is the number of queued items |
| BoundedQueues.BoundedQueue.constructor | include/concurrency/bounded_queue.hpp:20-21 | an empty open queue whose capacity is at least 1 |
| BoundedQueues.BoundedQueue.TryPush | include/concurrency/bounded_queue.hpp:23-33 | appends exactly when open and not full, whichever way the ring wraps |
| BoundedQueues.BoundedQueue.Push | include/concurrency/bounded_queue.hpp:35-51 | after its wait, appends exactly when open and not full |
| BoundedQueues.BoundedQueue.TryPop | include/concurrency/bounded_queue.hpp:53-63 | removes and returns the oldest item, or nothing when empty |
| BoundedQueues.BoundedQueue.Pop | include/concurrency/bounded_queue.hpp:65-77 | after its wait, removes and returns the oldest item, also when closed |
| OutboxStore.KeyIdentifies | include/delivery/outbox/outbox.hpp:24-26 | two signals share a dedupe key exactly when they share prediction id and kind |
| OutboxMachine.AtMostOnce | include/delivery/outbox/outbox.hpp:23-84 | for any number of publishers and workers, interleaved between locked sections, no key is marked delivered twice in up to 50,001 deliveries, nor between two clearings |
| OutboxMachine.TwiceBeyondTheLimit | include/delivery/outbox/outbox.hpp:66 | the bound is exact: a run of 50,002 deliveries that repeats a key |
| OutboxMachine.StepKeepsInv | include/delivery/outbox/outbox.hpp:23-84 | every step keeps at most one live copy of each key and the counts |
| OutboxMachine.Conservation | include/delivery/outbox/outbox.hpp:47-84 | published = queued + held + delivered + dead-lettered + lost; claimed = delivered + failed + held; queued items are below the attempt limit and no publication is claimed more than five times |
| OutboxMachine.SettlementWearsOut | include/delivery/outbox/outbox.hpp:70-84 | a measure that only a new publication raises falls with every delivery and every failure |
| OutboxMachine.LostForever | include/delivery/outbox/outbox.hpp:29-31 | a lost item's key stays reserved, is never delivered and every later publish of it is refused |
| OutboxMachine.LostMeansStranded | include/delivery/outbox/outbox.hpp:29-35 | over any run the reserved keys with no item queued or with any thread are exactly those of the lost items |
| OutboxMachine.LostExactlyWhenRequeueFindsFull | include/delivery/outbox/outbox.hpp:79-81 | the only step that leaves a reserved key without an item is a re-queue that finds the queue full |
| OutboxMachine.ItemLost | include/delivery/outbox/outbox.hpp:70-84 | a run that loses an item |
| OutboxMachine.PublishIsARun | include/delivery/outbox/outbox.hpp:23-49 | an undisturbed publish is the run of its locked sections |
| Outboxes.OutboxQueue.Enqueue | include/delivery/outbox/outbox_queue.hpp:12-20 | stamps a fresh id, used up even when the queue is full, and appends or counts a drop |
| Outboxes.OutboxQueue.Dequeue | include/delivery/outbox/outbox_queue.hpp:22-26 | removes and returns the oldest item |
| Outboxes.Outbox.Publish | include/delivery/outbox/outbox.hpp:23-49 | refuses a taken key, gives the key back when the queue is full, and otherwise queues the item |
| Outboxes.Outbox.Claim | include/delivery/outbox/outbox.hpp:51-58 | takes the oldest item and marks it claimed |
| Outboxes.Outbox.MarkDelivered | include/delivery/outbox/outbox.hpp:60-68 | moves the key from pending to delivered, with the bulk clear |
| Outboxes.Outbox.MarkFailed | include/delivery/outbox/outbox.hpp:70-84 | counts the attempt and dead-letters at the limit or puts the item back under a fresh id |
| Outboxes.RefusedGoesBack | include/delivery/outbox/outbox_worker.hpp:53-57 | an item the sink refuses goes to the back of the queue with one attempt more, or is dead-lettered at the limit |
| Outboxes.WorkIsARun | include/delivery/outbox/outbox_worker.hpp:42-60 | what the worker's loop does undisturbed is a run of the interleaved protocol, whose k-th settling step is a delivery exactly when the k-th verdict says so |
| Outboxes.OutboxWorker.Turn | include/delivery/outbox/outbox_worker.hpp:44-58 | an item the sink takes is marked delivered, one it refuses is marked failed, and nothing else happens |
| Outboxes.OutboxWorker.Run | include/delivery/outbox/outbox_worker.hpp:42-60 | the loop claims, delivers and settles one item per turn; delivered and failed grow by the number of items with each verdict |
| OutboxLeases.RecoveryOutcome | include/delivery/outbox/outbox_lifecycle.hpp:109-121 | given room, a recovered item leased with at most two attempts is queued again under a fresh id with two more, nothing else is queued, and all others are dead-lettered |
| OutboxLeases.OutboxLifecycle.ClaimWithLease | include/delivery/outbox/outbox_lifecycle.hpp:49-66 | claims an item and records its lease and payload under its id |
| OutboxLeases.OutboxLifecycle.CompleteDelivered | include/delivery/outbox/outbox_lifecycle.hpp:68-74 | marks the item delivered and forgets its lease |
| OutboxLeases.OutboxLifecycle.CompleteFailed | include/delivery/outbox/outbox_lifecycle.hpp:76-82 | marks the item failed and forgets its lease |
| OutboxLeases.OutboxLifecycle.TakeExpired | include/delivery/outbox/outbox_lifecycle.hpp:91-108 | takes out exactly the leases whose deadline is before now, and their items |
| OutboxLeases.OutboxLifecycle.RecoverExpiredLeases | include/delivery/outbox/outbox_lifecycle.hpp:88-124 | takes exactly the leases whose deadline is before now, settles their items as the recovery function says and keeps lease ids, in-flight ids and queued ids in order |
| LeaseMachine.LeasesAgree | include/delivery/outbox/outbox_lifecycle.hpp:49-108 | over any run leases and in-flight items have the same ids, none of them queued, and a recovery takes exactly the leases whose deadline is before its clock |
| LeaseMachine.TakenExactlyWhenOverdue | include/delivery/outbox/outbox_lifecycle.hpp:55-95 | whatever happens in between, a recovery at now that still meets a lease recorded at leaseNow takes it exactly when now > leaseNow + timeout |
| LeaseMachine.WithoutExpiryAWorkerRun | include/delivery/outbox/outbox_lifecycle.hpp:49-82 | a run in which no lease expires is a run of the worker path |
| LeaseRecovery.RecoveryIsARun | include/delivery/outbox/outbox_lifecycle.hpp:88-124 | a recovery that nothing interrupts is a run of the interleaved steps with the effect of the object's loop |
| LeaseDelivery.AtMostOnceUnlessRaced | include/delivery/outbox/outbox_lifecycle.hpp:49-124 | at most once however many leases expire, the detour at the attempt limit included, unless a worker settles an item already collected or a recovery collects one already settled |
| LeaseDelivery.CrashedWorkerIsReplaced | include/delivery/outbox/outbox_lifecycle.hpp:88-124 | a run in which the worker never returns, its lease is recovered after its deadline and the item is delivered once, without either race |
| LeaseDelivery.TwiceWhenLate | include/delivery/outbox/outbox_lifecycle.hpp:68-74 | a run with only the first race and two deliveries of one key: the worker finishes after the recovery |
| LeaseDelivery.TwiceWhenEarly | include/delivery/outbox/outbox_lifecycle.hpp:68-108 | a run with only the second race and two deliveries of one key: the recovery comes between the delivery and the erasure of the lease |
| Recency.WindowFollowsHistory | include/ingestion/event_router.hpp:53-63 | keeping the newest distinct keys step by step agrees with the window computed from the whole history |
| Recency.InWindowIffFresh | include/ingestion/event_router.hpp:50-51 | a key is in the window exactly when it was seen and fewer than the capacity of distinct other keys came since |
| Recency.SpliceMovesToBack | include/ingestion/event_router.hpp:53 | a splice moves the key's own node to the back and keeps the map pointing at it |
| Recency.LinkedKeys | include/observability/recent_round_cache.hpp:74-75 | list and map hold the same distinct keys |
| Recency.NewestAppend | include/ingestion/duplicate_filter.hpp:44-50 | appending and evicting keeps exactly the newest accepted keys |
| Events.RouterKeyIdentifies | include/ingestion/event_router.hpp:47-48 | router keys are equal exactly for the same game, kind and sequence number |
| Events.FilterKeyIdentifies | include/ingestion/duplicate_filter.hpp:55-60 | filter keys are equal exactly for the same id, kind, sequence number and elapsed time |
| RoundCache.RecentRoundCache.Get | include/observability/recent_round_cache.hpp:47-53 | returns the value last put for a key exactly when fewer than capacity other keys were touched since |
| RoundCache.RecentRoundCache.Put | include/observability/recent_round_cache.hpp:28-45 | keeps list and map as the history of puts and hits says |
| RoundCache.RecentRoundCache.Contains | include/observability/recent_round_cache.hpp:55-58 | answers as a get would, without touching |
| RoundCache.RecentRoundCache.Evict | include/observability/recent_round_cache.hpp:40-44 | the eviction loop keeps the newest nodes and their map entries |
| Duplicates.DuplicateFilter.AcceptKey | include/ingestion/duplicate_filter.hpp:39-53 | refuses a key exactly when it is among the last max accepted ones |
| Duplicates.DuplicateFilter.Accept | include/ingestion/duplicate_filter.hpp:21-37 | refuses invalid events and events whose key is in the window |
| Duplicates.DuplicateFilter.Evict | include/ingestion/duplicate_filter.hpp:47-50 | set and queue lose the same oldest keys |
| Routers.EventRouter.Route | include/ingestion/event_router.hpp:36-98 | what one call does to lanes, counters and window; it returns false exactly when one of the two drop counters grows |
| Routers.RouteAnswers | include/ingestion/event_router.hpp:36-97 | an invalid event or a duplicate is only counted; any other is stamped, goes to the lanes meant for it that have room, and is refused exactly when a drop is counted |
| Routers.EventRouter.Admit | include/ingestion/event_router.hpp:45-64 | drops an event exactly when the history of keyed arrivals makes it a duplicate |
| Routers.EventRouter.Evict | include/ingestion/event_router.hpp:59-63 | the eviction loop keeps the newest 10,000 keys in list and map |
| Routers.EventRouter.FanOut | include/ingestion/event_router.hpp:66-92 | ends go to three lanes, starts to one, anything else to none |
| Routers.OneFullLaneRefuses | include/ingestion/event_router.hpp:32-36 | an end event that a single full lane turns into false while the other two lanes take it |
| Routers.EveryEndAccountedFor | include/ingestion/event_router.hpp:66-92 | over any run of arrivals and takings, each end that is no duplicate was dropped by, is in, or was taken from, each of the two lanes that matter |
| Routers.DuplicatesAreRepeats | include/ingestion/event_router.hpp:47-56 | only a repeat of an earlier valid event of the same game, kind and sequence is dropped |
| Routers.RecentRepeatsAreDropped | include/ingestion/event_router.hpp:50-63 | every repeat is dropped while at most 10,000 keyed events have arrived |
| Registry.FindIsAScan | include/validation/prediction_registry.hpp:50-60 | while the indexes agree, find answers what a scan of all pending predictions would |
| Registry.AddAgrees | include/validation/prediction_registry.hpp:33-34 | registering an id not pending elsewhere keeps the indexes in agreement |
| Registry.AddSharedOrphans | include/validation/prediction_registry.hpp:34 | registering an id that is pending for another round leaves a prediction its id does not lead to |
| Registry.PruneKeepsNewest | include/validation/prediction_registry.hpp:96-120 | pruning keeps the indexes in agreement and exactly the newest max predictions by (createdAtMs, id) |
| Registry.TakeAgrees | include/validation/prediction_registry.hpp:40-48 | taking a round removes exactly its predictions and keeps agreement |
| Registry.ExpireAgrees | include/validation/prediction_registry.hpp:69-88 | an expiry keeps agreement |
| Registry.ExpirePending | include/validation/prediction_registry.hpp:69-88 | after an expiry exactly the predictions no older than the limit are pending |
| Registries.RegisterEffect | include/validation/prediction_registry.hpp:33-36 | registering and pruning keep agreement exactly when the id is not shared with another round |
| Registries.PredictionRegistry.RegisterPrediction | include/validation/prediction_registry.hpp:21-38 | its three answers, the new indexes, and that a healthy registry (indexes agree, size within max, registered = pending + taken + expired + pruned) stays so exactly when the id is not shared |
| Registries.PredictionRegistry.PruneIfNeeded | include/validation/prediction_registry.hpp:96-120 | drops the oldest predictions beyond the limit |
| Registries.PredictionRegistry.FindById | include/validation/prediction_registry.hpp:50-60 | walks the two indexes |
| Registries.PredictionRegistry.TakeForRound | include/validation/prediction_registry.hpp:40-48 | returns and removes the round's predictions |
| Registries.PredictionRegistry.ExpireStale | include/validation/prediction_registry.hpp:69-88 | removes exactly the stale predictions from both indexes |
| Registries.PredictionRegistry.Size | include/validation/prediction_registry.hpp:62-67 | the sum over the rounds is the number of pending predictions |
| Settlements.SettledAtMostOnce | include/validation/live_validator.hpp:70-122 | under every interleaving, accepting an end and taking its round being separate steps, each registration yields at most one outcome, from the first taking of its round after it, with the right verdict |
| Settlements.SettledByItsOwnRound | include/validation/live_validator.hpp:78-111 | a registration is only settled by a valid end that names its round, by round id or else by game id, at that end's crash point |
| Settlements.AcceptedEndSettles | include/validation/live_validator.hpp:78-122 | once an end has been accepted, taking its round settles every prediction then pending for the round it names |
| Settlements.SettledByEarlierEndIff | include/validation/live_validator.hpp:84-111 | up to 5,001 accepted ends, a registration is settled by an end accepted before it exactly when an end of its round is accepted and not yet taken at that moment; beyond, only if, or the round ends again more than 5,000 ends later |
| Settlements.SettledByEarlierEnd | include/validation/live_validator.hpp:84-111 | a run in which that happens |
| Settlements.SerialSettlesAtFirstEnd | include/validation/live_validator.hpp:70-122 | with calls one after the other, a registration is settled by the first accepted end of its round after it |
| Settlements.EndSettlesItsRound | include/validation/live_validator.hpp:111-122 | the taking of a round leaves nothing of it pending and settles each of those predictions |
| Settlements.VStepKeeps | include/validation/live_validator.hpp:62-122 | every registration, accepted end, taking and expiry keeps the settlement invariant |
| Validators.OutcomeMatcher.Match | include/validation/outcome_matcher.hpp:18-36 | takes the predictions pending for the event's round id, or else its game id, and settles each in order; wins, losses, voids and confidence are tallied, an end without predictions is counted |
| Validators.OnlyThreeVerdicts | include/validation/outcome.hpp:9-27 | every outcome is a win, a loss or void by its own prediction's decision and target, none is stale, pending or duplicate |
| Validators.EnteredConfidenceBounds | include/validation/outcome_matcher.hpp:24-29 | with confidences up to 1 the tallied confidence is at most the number of wins and losses, and equal to it if all are 1 |
| Validators.AppendEnd | include/validation/live_validator.hpp:94-99 | a round outside the window has no list node, so the splice branch cannot be reached |
| Validators.EndIsARun | include/validation/live_validator.hpp:70-122 | an end that runs undisturbed is a run of the interleaved calls with the effect of onGameEnd, outcomes included |
| Validators.LiveValidator.OnGameEnd | include/validation/live_validator.hpp:70-136 | accepts an end exactly when it is valid, names a round by round id or else game id, and that round is not among the last 5,000 accepted ones, and settles that round exactly then |
| Validators.LiveValidator.NoteEnd | include/validation/live_validator.hpp:86-108 | list, map and set take the new round and keep the same newest 5,000 |
| Validators.LiveValidator.Evict | include/validation/live_validator.hpp:100-105 | the eviction loop, while the set does not hold the new round yet |
| Attempts.CompletedGenerationsRise | include/prediction_interface/prediction_attempt.hpp:92-105 | from any moment after which a target's fence is not cleared, the completed generations of that target strictly increase over the calls begun since |
| Attempts.FallsAfterClear | include/validation/fencing.hpp:35-38 | a run in which a clear makes completed generations fall |
| Attempts.SupersededCompletesIff | include/prediction_interface/prediction_attempt.hpp:142-158 | until its target's fence is cleared, a superseded attempt completes exactly when its fence check had already passed and the completion ends |
| Attempts.RevivedByClear | include/validation/fencing.hpp:35-38 | a run in which a clear lets a superseded attempt, not yet checked, complete |
| Attempts.OvertakenAfterItsCheck | include/prediction_interface/prediction_attempt.hpp:142-158 | a run in which an attempt completes although it was superseded after its check |
| Attempts.SettledStays | include/prediction_interface/prediction_attempt.hpp:107-158 | no completion or expiry ever changes a completed, timed-out or fenced record |
| Attempts.EachCompletesOnce | include/prediction_interface/prediction_attempt.hpp:142-158 | each begun attempt completes at most once, clears or not; a record in flight has not completed and a completed one has |
| Attempts.TimedOutOnlyWhenLate | include/prediction_interface/prediction_attempt.hpp:107-120 | over any run, a record times out only by an expiry that finds it in flight for longer than the limit |
| Attempts.TStepKeeps | include/prediction_interface/prediction_attempt.hpp:56-158 | every step except a clear of the target keeps the generations of the calls since a given moment in order |
| Attempts.AStepKeeps | include/prediction_interface/prediction_attempt.hpp:56-158 | every step of begin, complete, expireTimeouts and clear keeps records and calls in agreement |
| Coordinators.PredictionAttemptCoordinator.Begin | include/prediction_interface/prediction_attempt.hpp:56-89 | supersedes earlier attempts, records the new one, and marks it failed when it cannot be submitted |
| Coordinators.CompleteIsARun | include/prediction_interface/prediction_attempt.hpp:92-158 | a completion that runs undisturbed is a run of the interleaved calls with the effect of complete |
| Coordinators.BeginIsARun | include/prediction_interface/prediction_attempt.hpp:56-89 | so is an undisturbed begin |
| Coordinators.PredictionAttemptCoordinator.Complete | include/prediction_interface/prediction_attempt.hpp:92-105 | applies a response to the record it names or else to one in flight for its target: completed with the response, or fenced without it |
| Coordinators.PredictionAttemptCoordinator.CompleteLocked | include/prediction_interface/prediction_attempt.hpp:142-158 | completes a record that is in flight and current, fences one that is not current |
| Coordinators.PredictionAttemptCoordinator.ExpireTimeouts | include/prediction_interface/prediction_attempt.hpp:107-126 | times out exactly the records with now - startedAtMs over the limit and in flight, counts them, and changes nothing else |
| LeaseRows.UnexpiredRowIsSafe | include/live/live_supervisor.hpp:50-53 | over any run of the other workers, an unexpired row stays as it is |
| LeaseRows.RenewedInTimeIsKept | include/live/live_supervisor.hpp:78-91 | a worker that only renews, in time, keeps row, epoch and authority whatever the others do |
| LeaseRows.CrashedOwnerIsReplaced | include/live/live_supervisor.hpp:47-53 | a worker that acquires and is never heard of again keeps the row until now + ttl; the first acquire after that takes it over under the next epoch |
| LeaseRows.RowStaysIff | include/live/live_supervisor.hpp:97-105 | there is a row in every state of a run exactly when no release of the run finds its own owner and epoch in it |
| LeaseRows.EpochsRise | include/live/live_supervisor.hpp:50-81 | while no release deletes the row the epoch never falls, and it rises with every change of owner |
| LeaseRows.StaleEpochHasNoEffect | include/live/live_supervisor.hpp:78-102 | after the row has been acquired again, and while no release deletes it, a renewal or release with an old epoch does nothing |
| LeaseRows.ReleaseRestartsEpochs | include/live/live_supervisor.hpp:97-105 | a run in which a release deletes the row and a renewal under an earlier epoch has effect again |
| LeaseRows.AuthorityIsBackedIff | include/live/live_supervisor.hpp:48-68 | whatever runs between statement and read-back, the authority an acquire claims is backed by the row exactly when the row was free, expired or its own, was not lost in between, and was read back (or is by chance one epoch on) |
| LeaseRows.BackedWhenReadInTime | include/live/live_supervisor.hpp:48-68 | with only other workers in between and a read before the row can expire, exactly when the row was free, expired or its own |
| LeaseRows.LostBeforeTheRead | include/live/live_supervisor.hpp:56-67 | a run in which a free row is acquired, expires and is taken before it is read back, and authority is claimed |
| LeaseRows.RenewedInVain | include/live/live_supervisor.hpp:77-94 | a run after which every renewal succeeds and none extends the row |
| LeaseRows.OneAuthorityPerEpoch | include/live/live_supervisor.hpp:48-105 | over any run in which every acquire reads back its own row and no release deletes one, two workers with authority under the same epoch are the same |
| LeaseRows.TwoAuthorities | include/live/live_supervisor.hpp:56-67 | a run without releases after which two workers claim authority under the same epoch: an acquire met a live row |
| LeaseRows.TwoAuthoritiesByRelease | include/live/live_supervisor.hpp:97-105 | a run in which every acquire reads its own row and two workers claim authority under the same epoch: a release deleted the row first |
| LeaseRows.LeaseTable.Acquire | include/live/live_supervisor.hpp:49-53 | a row that is free, expired or its own is written, expiring at now + ttl, any other left alone |
| LeaseRows.LiveSupervisor.Acquire | include/live/live_supervisor.hpp:37-70 | statement and read-back, and when the claimed authority is backed |
| LeaseRows.LiveSupervisor.Renew | include/live/live_supervisor.hpp:72-95 | a renewal that succeeds found its own worker as owner and extends the row only at its own epoch |
| LeaseRows.LiveSupervisor.Release | include/live/live_supervisor.hpp:97-105 | removes the row at the supervisor's own epoch and drops authority |
| BatchWriters.EachAttemptedOnce | include/persistence/batch_writer.hpp:44-166 | in every run, calls of flush by any thread included, each accepted item is attempted once or waits in one place, and attempts are counted as the direct writer would |
| BatchWriters.BatchedIsDirect | include/persistence/batch_writer.hpp:44-166 | at every moment of every run in which no step overtakes, the attempted items are a prefix of the accepted ones, written as the direct writer would, and after stop they are all |
| BatchWriters.LessThanABatchIsBuffered | include/persistence/batch_writer.hpp:105-127 | the buffer never reaches a whole batch, so the flush of an idle worker never happens |
| BatchWriters.AloneNeverOvertakes | include/persistence/batch_writer.hpp:105-127 | nothing overtakes as long as only the worker and stop flush |
| BatchWriters.FlushOvertakes | include/persistence/batch_writer.hpp:84-95 | a run in which a call of flush attempts a later item before the one the worker holds |
| BatchWriters.BatchSizeIsIrrelevant | include/persistence/batch_writer.hpp:105-127 | two stopped writers that accepted the same items, with nothing overtaken, did the same work whatever their batch sizes and schedules |
| BatchWriters.BStepKeeps | include/persistence/batch_writer.hpp:44-166 | every step of producers, worker, stop and other callers of flush loses and repeats nothing, and keeps the order unless it overtakes |
| BatchWriters.WriteAllCounts | include/persistence/batch_writer.hpp:148-163 | every attempt is counted under its answer and the offline log is the newest 1,000 offline items |
| BatchWriters.BatchWriter.Enqueue | include/persistence/batch_writer.hpp:54-61 | accepts exactly when the queue is open and not full, and counts drops |
| BatchWriters.BatchWriter.WriteBatch | include/persistence/batch_writer.hpp:129-166 | writes a batch item by item as the direct writer would |
| BatchWriters.BatchWriter.Flush | include/persistence/batch_writer.hpp:84-95 | attempts everything buffered and queued, in order |
| BatchWriters.BatchWriter.Drain | include/persistence/batch_writer.hpp:90-93 | appends the queue's items to the batch in order |
| BatchWriters.BatchWriter.Turn | include/persistence/batch_writer.hpp:106-126 | one turn of the worker: an item moves to the buffer, a full buffer is written |
| BatchWriters.BatchWriter.Run | include/persistence/batch_writer.hpp:105-127 | any number of turns only ever extends the attempted prefix |
| BatchWriters.BatchWriter.Stop | include/persistence/batch_writer.hpp:44-52 | afterwards everything accepted has been attempted and counted |
| Replays.FrameLayout | include/tools/replay_source.hpp:66-72 | the bytes of a frame: eight of time, four of length, least significant first, then the data |
| Replays.LoadTruncated | include/tools/replay_source.hpp:26-47 | loading any truncation of a recording returns exactly the frames wholly contained in it |
| Replays.WholeFramesMeans | include/tools/replay_source.hpp:31-45 | the whole frames within n bytes are the longest prefix that fits |
| Replays.ReadsBackIff | include/tools/replay_source.hpp:26-72 | a recording reads back whole exactly when no frame is over 16 MiB |
| Replays.LoadStopsAtLarge | include/tools/replay_source.hpp:37 | the load ends before the first frame that is too large |
| Replays.LargeFrameReadsWrong | include/tools/replay_source.hpp:66-72 | a frame over 16 MiB ends the load or is read with its length cut to 32 bits |
| Replays.LoadedFramesWriteBack | include/tools/replay_source.hpp:26-47 | whatever the file holds, writing the loaded frames gives back its beginning, and no frame starts where that ends |
| Replays.ReplaySource.Load | include/tools/replay_source.hpp:26-47 | the read loop returns the frames the format function finds and whether there are any |
| Replays.ReplaySource.Next | include/tools/replay_source.hpp:55-58 | returns the frame at the cursor and moves on, or nothing at the end |
| Replays.PlayRecording | include/tools/replay_source.hpp:26-72 | a recording that is cut, loaded and played yields its whole frames in order and then nothing |
| CrashStats.BucketsPartition | include/ingestion/stats.hpp:40-51 | each value at or above 1.0 is in exactly one half-open bucket, any other in none |
| CrashStats.BucketCountsAddUp | include/ingestion/stats.hpp:64-69 | the bucket counts add up to the number of rounds at or above 1.0 |
| CrashStats.StreaksStep | include/ingestion/stats.hpp:71-79 | one more round updates current streak and longest runs to their definitions over the longer list |
| CrashStats.StreaksAreUnique | include/ingestion/stats.hpp:24-30 | the streak record is determined by the rounds |
| CrashStats.MedianIsTheMiddle | include/ingestion/stats.hpp:88-90 | the reported median is a round with at most half below it and fewer than half above |
| CrashStats.CrashStatsAccumulator.AddRound | include/ingestion/stats.hpp:57-80 | count, sum, highest, lowest, buckets and streaks stay equal to their definitions over all rounds |
| CrashStats.CrashStatsAccumulator.AddToBuckets | include/ingestion/stats.hpp:64-69 | the loop that stops at the first bucket counts the round in its only bucket |
| CrashStats.CrashStatsAccumulator.GetSnapshot | include/ingestion/stats.hpp:82-95 | count, average, median, greatest and least of all rounds, or nothing without any |
| CrashStats.CrashStatsAccumulator.Ranges | include/ingestion/stats.hpp:97-104 | each bucket's true count and share |

## Left out

- Sockets, HTTP, libpq, Telegram, signing and the web frontend: input and output.
- The prediction engine, the models, repositories, scenarios, metrics, latency tracking, logging and benchmarks: no
  protocol of their own, or generated data.
- Weak memory orders: every atomic access is sequentially consistent. Statistics counters that are incremented on their
  own are folded into the neighbouring step.
- Wrap-around of 64-bit positions and counters, and of the `int` streak lengths, except in `size_approx`.
- Queue capacities requested above 2^63: the constructor's doubling loop would not stop.
- MpscMachine: `size_approx` of the multi-producer queue, which is a difference of two loads and promises nothing.
- SpscMachine.SizeIsLength: is about a queue with both threads at rest; a reader between other threads' stores sees only
  an approximation.
- BoundedQueues.BoundedQueue.Push: the waiting itself, and fairness among waiters.
- Routers.EventRouter.Route: has one caller, as its single-producer lanes require; the lanes are sequences with the
  capacity of their rings, whose own behaviour, pops included, `SpscMachine` covers.
- OutboxLifecycle's wake-up counter and condition variable: a hint to sleeping workers that no guarantee rests on.
- OutboxLeases.OutboxLifecycle.RecoverExpiredLeases: the object runs a whole recovery at once; the interleaving of its
  parts with other threads is in `LeaseMachine`.
- LeaseMachine.LeasesAgree: a claim and its lease are two steps, so an item claimed but not yet leased has no lease.
- Late-BG notes, outcome handlers, feedback dispatch and the next-round hook of the validator: callbacks and a set that
  nothing else reads.
- Validators.LiveValidator.OnGameEnd: the display text in its result.
- GlobalEpoch, and supervisors without a database: a counter with nothing to coordinate.
- Statements that fail after they took effect are in the steps of `LeaseRows` (an error only drops authority); in the
  object a failed statement leaves the row alone.
- The renew loop's thread: `LeaseRows.RState` allows its renewals at any time instead.
- SQL texts: an item of the batch writer stands for its statement. `SqlBuilder` is not part of this model.
- BatchWriters.BatchWriter.Flush: runs alone on the object; its interleaving with the worker is in the protocol
  above it.
- BatchWriters.BatchWriter.Run: takes a number of turns in place of the stop token; producers act between turns there,
  and at any step in the protocol above it.
- Byte order: the file format is taken as little-endian, which is what the host's memory image is on x86 and ARM.
- Floating-point rounding, NaN and infinities.
- `IsotonicCalibrator`, `WorkerPool` and the remaining components: not part of this model.
