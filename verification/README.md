# A verified model of the LMAX-rs exchange

This project models the exchange of LMAX-rs and proves what it does: the matching engine behind the
business logic processor, the wire format in front of it, and the disruptor pipeline that connects
the two.  `dafny verify dfyconfig.toml` checks all of it.

## What is modelled

**The exchange as its clients see it** (`Exchange.dfy`).  Each side of the book is one queue of
resting orders, best price first and oldest first within a tick; an index maps (client, client order
id) to an internal id.  `Step` says what one command does to the queues and the index and which events
it emits.  It is small enough to read, and it is where the laws are stated.

**The engine as it is built** (`BitMap`, `Arena`, `Ladder`, `Book`, `EventBuffer`, `Engine`,
`BusinessLogic`).  One array of generational slots holds the free list and, for every tick of both
sides, an intrusive doubly linked list; a flat array holds the cached levels, a three-level bitmap the
occupied ticks, two maps the index and the per-client counters.  These are classes whose methods
change their fields in place, statement by statement as the source does.  Every handler is proved to
do to the abstract state, and to emit, exactly what `Exchange` says, from every valid state
(`Engines.Engine.Process`).  `Queues.dfy` is the bridge: it reads the lists of a side off as one queue
and shows that an append is a price-time insertion, an unlink a cut, a reduction an update.

**Laws of the exchange** (`ExchangeInvariant`, `SweepLaws`, `PlaceLaws`, `PriorityLaws`, `LimitLaws`,
`LedgerLaws`, `FilledLaws`, `CrossingLaws`, `BookLaws`, `NameLaws`, `OrphanLaws`, `EventLaws`, `Reports`,
`Handles`, `Witnesses`).  Invariants over every run, the greedy sweep, price-time priority, limit protection, conservation
of quantity, when the book stays uncrossed, when the index names every order, what a modify does to
queue positions, what becomes of an order that has lost its name, which events are lost, how long a
handle is good.  `Reports` says field by field what each command reports and leaves behind, without the
functions `Step` is made of.  Where a property fails, its exact condition is proved and `Witnesses` has a run that
shows it.  Because the engine refines
`Exchange`, they hold of the engine.

**The pipeline** (`RingBuffer`, `Pipeline`, `PipelineSafety`, `PipelineAccess`, `PipelineProgress`,
`PipelineFairness`, `DeliveryLaws`).  The threads spin
on sequence numbers that other threads change, so they are modelled as a state machine: one step is
one read or write of a shared sequence, or one access to a ring cell, with the thread's own local work;
a schedule is any finite interleaving.  The upstream consumers of the input ring are any positive
number, of which number 0 is the unmarshaller.  Safety, exclusive access and deadlock freedom are proved
for every schedule, drain for every fair schedule, and what the output consumer reads is compared with
processing the messages one by one, message by message and event by event in `DeliveryLaws`.
`BusinessLogic.ProcessAll` computes that reference with the real reader and the real engine, which ties
the two halves together.

**The wire format** (`Wire`, `WireLayout`).  The encoding, the reader as functions, the unmarshaller's cursor
as a class proved against them, and the layout of both in numbers.

## Conventions

- Prices, client ids and wire quantities are 64-bit; ticks are 0 to 262143.  The engine assumes a tick
  size of at least 1 and a capacity from 1 to 2^32, as the source does without checking.
- An out-of-range or stale case the source handles is a branch of the model.  Where the invariant
  excludes it, the branch is `assert false`.
- The ring index is the remainder by the capacity; `RingBuffers.MaskIsMod` shows that this is the
  source's mask for a power of two.
- Levels are handed to the arena and back by value, since the source's `&mut` borrow rules out aliasing.

## Where the code differs from what is said about it

- A price between two ticks rests on the tick below it.  A BUY can therefore trade above its limit
  (exactly when: `LimitLaws.SweepAboveLimit`, `LimitLaws.BuyProtectedIffAligned`; a run:
  `LimitLaws.UnalignedBuyAboveLimit`), and a SELL can come to rest on the tick of a bid
  (`CrossingLaws.PlaceLimitUncrossed`; a run: `CrossingLaws.UnalignedSellLocks`).
- A re-pricing modify does not match: it can leave the book crossed (`CrossingLaws.AmendUncrossed`; a
  run: `Witnesses.ModifyCrosses`).
- A modify to a price off the ladder is reported as rejected but destroys the order
  (`BookLaws.RejectedModify`; a run: `Witnesses.RejectedAndGone`).
- A re-queue with other leaves keeps `quantity` and `filled_qty`, so the order no longer adds up
  (`LedgerLaws.RunBalanced`; a run: `Witnesses.IncreaseUnbalances`).
- A resting order can lose its name, and only a named order can be cancelled (`NameLaws.CancelsIffNamed`).
  It does so in exactly two ways (`NameLaws.RunNamedWhileResting`): another order comes to rest under its
  id (a run: `Witnesses.ReuseOrphans`), or an older order that had lost the same id to it is filled, which
  removes the id from the index without asking whose it is (a run: `Witnesses.FillTakesName`).  It can then
  never again be cancelled or modified: only fills change or remove it (`OrphanLaws.RunOrphan`).  As long
  as nobody reuses a live id, neither happens (`BookLaws.RunNamed`).
- `filled_qty` is not what an order has traded: an in-place modify books what it takes off as filled
  (`FilledLaws.FilledIsTradedAndTrimmed`).
- Order ids are called ABA-safe.  They are for fewer than 2^32 frees of one slot (`Handles.HandleGoodIff`;
  a history: `Handles.HandleWraps`).
- Only the first sixteen events of a command are published (`EventLaws.NothingLost`; a run:
  `Witnesses.SeventeenthFillLost`).
- The project's README says that no two threads access a slot concurrently.  That holds per field
  (`PipelineAccess.NoConflicts`) but not per slot: another upstream consumer may be at the bytes of a
  message while the unmarshaller stores its command, and this is the only way two threads meet at a cell
  (`PipelineAccess.MeetIff`; a run: `PipelineAccess.CellIsShared`).
- The comment at `LMAX-rs-main/src/blp/handlers.rs:404` describes a re-queue that finds the arena full.
  This cannot happen (`Engines.Engine.Requeue`).

## Model

| member | source | states |
|---|---|---|
| BitMaps.BitMap.SetBit | LMAX-rs-main/src/blp/bitmap.rs:16-24 | adds exactly tick `n` to the set of ticks and keeps every summary bit equal to "the word below is not zero" |
| BitMaps.BitMap.ClearBit | LMAX-rs-main/src/blp/bitmap.rs:26-39 | removes exactly tick `n`; summary bits are cleared just as far up as words become zero |
| BitMaps.BitMap.BestAsk | LMAX-rs-main/src/blp/bitmap.rs:41-51 | the minimum of the set, or None exactly when it is empty |
| BitMaps.BitMap.BestBid | LMAX-rs-main/src/blp/bitmap.rs:53-63 | the maximum of the set, or None exactly when it is empty |
| BitMaps.JoinFields | LMAX-rs-main/src/blp/bitmap.rs:50-50 | joining three six-bit fields by shifts and ors is the sum with weights 4096, 64 and 1 |
| BitMaps.SplitFields | LMAX-rs-main/src/blp/bitmap.rs:17-19 | splitting a tick by shifts and masks gives its quotients and remainders |
| Handles.HandleGoodIff | LMAX-rs-main/src/blp/arena.rs:51-64 | over every allocation history: a handle given out is good exactly when its slot is in use and has been freed a multiple of 2^32 times since |
| Handles.HandleSafety | LMAX-rs-main/src/blp/arena.rs:51-157 | a handle resolves to its slot until that slot is freed and to nothing ever after, even when the slot is in use again, for fewer than 2^32 frees of the slot |
| Handles.HandleWraps | LMAX-rs-main/src/blp/arena.rs:151-155 | with its slot freed and allocated again `n` times, a handle names the latest order in the slot exactly when `n` is a multiple of 2^32 |
| Handles.GenerationCountsFrees | LMAX-rs-main/src/blp/arena.rs:151-155 | a slot's generation is its number of frees modulo 2^32; a slot in use and never freed stays in use |
| Arenas.Arena.constructor | LMAX-rs-main/src/blp/arena.rs:37-49 | all slots are free and on the free list, none is live |
| Arenas.Arena.ValidateResolves | LMAX-rs-main/src/blp/arena.rs:51-64 | `validate` on the slots is resolution in the pool of `Handles`, whose invariant the arena's invariant implies |
| Arenas.Arena.AllocOrder | LMAX-rs-main/src/blp/arena.rs:66-114 | fails exactly when nothing is free, and then changes nothing; otherwise takes the head of the free list, appends it to the level's doubly linked list touching only that slot and the old tail's link, and keeps head, tail, count and total exact |
| Arenas.Arena.FreeOrder | LMAX-rs-main/src/blp/arena.rs:116-157 | unlinks the slot so that its neighbours pass over it, pushes it on the free list under the next generation, keeps the level exact; a slot already free is left alone |
| Arenas.AppendLevel | LMAX-rs-main/src/blp/arena.rs:81-104 | from the effect of the link writes of an append alone: the longer list is linked both ways and its cached level is exact |
| Arenas.UnlinkLevel | LMAX-rs-main/src/blp/arena.rs:117-149 | the same for an unlink at any place of the list; the level's total was at least what is taken off it, so the saturating subtraction never clips |
| Arenas.ReduceLevel | LMAX-rs-main/src/blp/matching.rs:105-124 | an in-place reduction keeps links and level exact, and never clips the total |
| Books.HalfBook.AddOrder | LMAX-rs-main/src/blp/book.rs:25-45 | appends to the list of its tick, creating level and bitmap bit when the tick was empty and dropping an empty level again when the arena is full; no other tick changes |
| Books.HalfBook.RemoveOrder | LMAX-rs-main/src/blp/book.rs:47-55 | unlinks from the list of its tick and drops level and bitmap bit when the list becomes empty; a missing level or a free slot is left alone |
| Ladders.LadderAppend | LMAX-rs-main/src/blp/book.rs:25-45 | an append to one tick's list leaves every other tick's list and level as they were, although all lists live in one array |
| Ladders.LadderUnlink | LMAX-rs-main/src/blp/book.rs:47-55 | the same for an unlink |
| Ladders.LadderReduce | LMAX-rs-main/src/blp/matching.rs:113-124 | the same for an in-place reduction |
| Books.OrderBook.SlotPartition | LMAX-rs-main/src/blp/arena.rs:30-34 | every slot is either on the free list or in the list of exactly one side and tick, those of its order |
| Books.OrderBook.LevelExact | LMAX-rs-main/src/blp/book.rs:31-54 | at every tick: bitmap bit set iff a level is there iff the list is not empty; the list is linked both ways; head, tail, `order_count` and `total_qty` (the sum of leaves) are exact |
| Books.OrderBook.Occupancy | LMAX-rs-main/src/blp/arena.rs:30-34 | live count plus free-list length is the capacity, and the live count is the length of the two queues |
| Books.OrderBook.QueueIsLiveSlots | LMAX-rs-main/src/blp/book.rs:70-76 | a side's queue holds the orders of exactly the live slots of that side, each once |
| Queues.AppendIsInsert | LMAX-rs-main/src/blp/book.rs:25-45 | appending to the list of its tick puts an order exactly where price-time priority wants it in the queue of its side |
| Queues.UnlinkIsCut | LMAX-rs-main/src/blp/book.rs:47-55 | unlinking a slot cuts its order out of the queue and moves no other |
| Queues.ReduceIsUpdate | LMAX-rs-main/src/blp/matching.rs:105-124 | an in-place reduction changes one order of the queue and moves none |
| Queues.HeadOfBest | LMAX-rs-main/src/blp/matching.rs:33-62 | the best occupied tick's first slot holds the head of the queue |
| Books.OrderBook.AddOrder | LMAX-rs-main/src/blp/book.rs:25-45 | refuses exactly when both queues fill the arena; otherwise inserts into its own queue by price and time, keeps the other queue, and every other live slot keeps order and generation |
| Books.OrderBook.RemoveOrder | LMAX-rs-main/src/blp/book.rs:47-55 | cuts exactly the slot's order out of its queue, keeps the other queue and every other live slot |
| Books.OrderBook.BestTick | LMAX-rs-main/src/blp/book.rs:57-63 | the tick of the queue's head, None exactly when the queue is empty |
| Books.OrderBook.HeadSlot | LMAX-rs-main/src/blp/book.rs:65-67 | on the best tick there is a head slot and it is live and holds the queue's head: the sweep's defensive exits are never taken |
| Books.OrderBook.constructor | LMAX-rs-main/src/blp/book.rs:79-87 | an empty book |
| SweepLaws.PriceInTick | LMAX-rs-main/src/blp/book.rs:89-104 | `price_to_tick` rounds down: a price is in the half-open interval between its tick's price and the next |
| SweepLaws.OccupiedTickFits | LMAX-rs-main/src/blp/book.rs:102-104 | the price of a tick on which an order rests fits in 64 bits |
| Engines.Engine.constructor | LMAX-rs-main/src/consumer/blp.rs:61-64 | a new engine is the empty exchange with next id 1 |
| Engines.Engine.MatchAggressor | LMAX-rs-main/src/blp/matching.rs:16-133 | the loop over bitmap, levels, slots, index and accounts does the abstract sweep: same fills in the same order, same remaining queue and index, same quantity returned; it terminates by live orders and quantity |
| Engines.OneTurn | LMAX-rs-main/src/blp/matching.rs:76-129 | a sweep is its first fill followed by a sweep of what is left, and a turn removes an order or ends the sweep |
| Engines.Engine.ProcessPlace | LMAX-rs-main/src/blp/handlers.rs:23-177 | from every valid state: the new abstract state and the events are those of `Exchange.PlaceOrder`, and every invariant is kept |
| Engines.Engine.ProcessCancel | LMAX-rs-main/src/blp/handlers.rs:180-234 | the same for cancel; the stale-locator and wrong-owner branches are proved unreachable |
| Engines.Engine.ProcessModify | LMAX-rs-main/src/blp/handlers.rs:237-331 | the same for modify, with the reduction in place |
| Engines.Engine.Requeue | LMAX-rs-main/src/blp/handlers.rs:333-411 | the re-queueing half: off the book, then to the tail of its new level, or destroyed when the price is off the ladder; the arena-full branch is proved unreachable |
| Engines.Engine.Process | LMAX-rs-main/src/consumer/blp.rs:104-146 | every command does to the abstract state, and emits, what `Exchange.Step` says |
| Engines.Engine.Located | LMAX-rs-main/src/blp/handlers.rs:188-223 | in every valid state, even with reused ids, a locator in the index validates to a live slot whose order has that key, side, tick and internal id, and it is the order the abstract index finds |
| Engines.Engine.CountersExact | LMAX-rs-main/src/blp/matching.rs:100-102 | each client's counter is the number of orders it has resting (zero without an account) and at most 1000 |
| Engines.AccountsAfterRemoval | LMAX-rs-main/src/blp/matching.rs:100-102 | a client whose order leaves has a positive counter, so the saturating subtraction never clips, and the counters stay exact |
| Engines.RequeueFresh | LMAX-rs-main/src/blp/handlers.rs:349-385 | taking an order off and putting it back always finds room and changes no counter |
| Reports.TickIsFloor | LMAX-rs-main/src/blp/book.rs:89-104 | a price has a tick exactly from the base price up to, not including, 262144 tick sizes above it, prices between two ticks included, and the tick is the number of whole tick sizes above the base |
| Reports.RefusedPlace | LMAX-rs-main/src/blp/handlers.rs:37-102 | a place is refused for zero quantity, for 1000 open orders, or for no or an off-ladder limit price, in this order; the one event names client, client order id and that reason, and of the state only the next id changes, which a refused price uses up |
| Reports.FillReport | LMAX-rs-main/src/blp/matching.rs:54-103 | the i-th event of a place that reaches matching is a fill exactly when the i-th order of the other side is at a price it takes and those ahead do not add up to its quantity; and then ids, clients, symbol, side, price and quantity of the fill are those of the command and of that order, field by field |
| Reports.FillsBeforeLast | LMAX-rs-main/src/blp/matching.rs:76-103 | every fill but the last takes all of its order |
| Reports.PlaceReport | LMAX-rs-main/src/blp/handlers.rs:61-176 | a place that reaches matching emits fills only when they add up to its quantity; otherwise its one further event cancels the rest of a market order, accepts a limit order for exactly what is left, at its own price and under its own ids, or rejects it as arena-full when no slot was free and nothing traded |
| Reports.PlacedOrder | LMAX-rs-main/src/blp/handlers.rs:115-170 | what then rests under the new id, all fields of it, and what the index says of its key; in every other case nothing rests under that id; one id is used up |
| Reports.OthersAfterPlace | LMAX-rs-main/src/blp/matching.rs:91-124 | a place leaves every other resting order as it was but for what its fills take |
| Reports.UnknownKey | LMAX-rs-main/src/blp/handlers.rs:188-194 | a cancel or modify of a key that is not in the index changes nothing and is rejected under the client's own order id and client id |
| Reports.CancelReport | LMAX-rs-main/src/blp/handlers.rs:205-233 | a cancel reports the internal id and the open quantity of the order its key names, and takes that order and that key away and no other |
| Reports.ModifyReport | LMAX-rs-main/src/blp/handlers.rs:284-402 | a modify, in each of its four outcomes: the event field by field, the index, and the one order that is changed or gone, all fields of it; the next id stays |
| ExchangeInvariant.StepKeepsInv | LMAX-rs-main/src/blp/handlers.rs:23-412 | every command keeps: queues sorted by tick, positive leaves, unique ids, every index entry naming a resting order of that key, at most `capacity` orders, at most 1000 per client |
| ExchangeInvariant.RunKeepsInv | LMAX-rs-main/src/blp/handlers.rs:23-412 | so does every run of commands |
| ExchangeInvariant.SweepKeepsInv | LMAX-rs-main/src/blp/matching.rs:28-132 | a sweep keeps the invariant, creates no order, and never increases anybody's open orders |
| SweepLaws.SweepIsGreedy | LMAX-rs-main/src/blp/matching.rs:28-132 | the sweep fills the first `k` orders of the queue completely and in order, takes part of the next or nothing, and touches nothing behind; every fill is positive and the fills plus the returned quantity are the input |
| SweepLaws.SweepTakesAll | LMAX-rs-main/src/blp/matching.rs:28-132 | the returned quantity is the input minus the smaller of the input and the open quantity on the crossing ticks |
| SweepLaws.SweepStops | LMAX-rs-main/src/blp/matching.rs:29-52 | a sweep ends only when it is filled, the other side is empty, or the next order does not cross |
| SweepLaws.CrossingIsPrefix | LMAX-rs-main/src/blp/matching.rs:43-52 | the orders that cross are a prefix of the queue |
| SweepLaws.FillTicksMonotone | LMAX-rs-main/src/blp/matching.rs:33-87 | successive fills are on the same or ever worse ticks for the aggressor |
| SweepLaws.LimitProtection | LMAX-rs-main/src/blp/matching.rs:43-87 | no fill of a SELL is below its limit; no fill of a BUY is a whole tick above its limit, nor above it at all when the resting price is on its tick |
| SweepLaws.SweepReaches | LMAX-rs-main/src/blp/matching.rs:28-132 | a sweep trades with the `i`-th order of the queue exactly when that order crosses and those ahead of it are not enough |
| LimitLaws.BuyProtectedIffAligned | LMAX-rs-main/src/blp/matching.rs:43-87 | in every state: no BUY of any limit and quantity trades above its limit if and only if every resting ask is priced on its tick |
| LimitLaws.BuyCommandsProtectedIff | LMAX-rs-main/src/blp/matching.rs:43-87 | the same for 64-bit quantities: no BUY a command can carry trades above its limit if and only if every ask within reach of one is priced on its tick |
| LimitLaws.SweepAboveLimit | LMAX-rs-main/src/blp/matching.rs:43-87 | a BUY sweep has a fill above a limit exactly when it reaches an ask that is dearer than the limit, crosses, and has less than the quantity ahead of it |
| LimitLaws.BuyAboveLimitIff | LMAX-rs-main/src/blp/handlers.rs:61-121 | the same for the whole place command, refused commands included |
| LimitLaws.UnalignedBuyAboveLimit | LMAX-rs-main/src/blp/book.rs:89-104 | a run from the empty book: for every ask price between two ticks, a BUY limited to the tick below trades at the ask's price |
| SweepLaws.SweepFills | LMAX-rs-main/src/blp/matching.rs:91-98 | a sweep fills the `i`-th order of the queue completely exactly when it crosses and the quantity is enough for all up to and including it |
| PriorityLaws.RunFifo | LMAX-rs-main/src/blp/handlers.rs:23-412 | over every run, with each order stamped by the command by which it last joined a queue: orders of one tick stand in strictly increasing stamp order |
| PriorityLaws.StepFifo | LMAX-rs-main/src/blp/handlers.rs:23-412 | every single command keeps this |
| PriorityLaws.QueueIsPriority | LMAX-rs-main/src/blp/book.rs:25-63 | one order stands before another exactly when it has a better tick, or the same tick and the earlier stamp |
| PriorityLaws.PriceTimePriority | LMAX-rs-main/src/blp/matching.rs:28-132 | after any run, a command that trades with a resting order has, earlier in its events, completely filled every order of that side with a better tick, or the same tick and an earlier stamp |
| PlaceLaws.PlaceShape | LMAX-rs-main/src/blp/handlers.rs:23-177 | what a place leaves behind: nothing changed, the state after its sweep, or that with its residual added, and which of these can be told beforehand |
| PlaceLaws.AcceptedIffRests | LMAX-rs-main/src/blp/handlers.rs:123-165 | a place comes to rest exactly when it is reported as accepted |
| LedgerLaws.StepLedger | LMAX-rs-main/src/blp/handlers.rs:61-233 | one command: open quantity after, twice what traded, what was cancelled, dropped or amended away equal open quantity before plus what entered |
| LedgerLaws.RunLedger | LMAX-rs-main/src/blp/handlers.rs:61-233 | the ledger balances over every run of all three commands |
| LedgerLaws.PlaceCancelLedger | LMAX-rs-main/src/blp/handlers.rs:61-233 | places and cancels from the empty book: what reached matching is twice the fills plus resting leaves plus cancelled leaves plus arena-full residuals |
| LedgerLaws.PlaceCancelKeepBalanced | LMAX-rs-main/src/blp/matching.rs:105-108 | places and cancels keep `leaves + filled = quantity` for every resting order |
| FilledLaws.FilledIsTradedAndTrimmed | LMAX-rs-main/src/blp/handlers.rs:297-303 | over every run: what a resting order shows as filled is what it has traded on either side plus what in-place modifies have taken off it, and so what it has traded exactly when there were none |
| LedgerLaws.RunBalanced | LMAX-rs-main/src/blp/handlers.rs:23-412 | every resting order adds up throughout a run exactly when no modify re-queues one with other leaves |
| Witnesses.IncreaseUnbalances | LMAX-rs-main/src/blp/handlers.rs:368-380 | a run from the empty book: a modify that asks for more at the same price leaves an order that does not add up |
| LedgerLaws.AmendBalance | LMAX-rs-main/src/blp/handlers.rs:296-380 | a modify keeps it exactly when it does not re-queue the order with other leaves |
| CrossingLaws.PlaceLimitUncrossed | LMAX-rs-main/src/blp/handlers.rs:98-141 | a limit order keeps the book uncrossed exactly unless it is a sell between two ticks, with a bid on its own tick, that is not filled and finds a slot |
| CrossingLaws.PlaceUncrossed | LMAX-rs-main/src/blp/handlers.rs:23-177 | the same for the whole place command |
| CrossingLaws.SweepLeavesOver | LMAX-rs-main/src/blp/matching.rs:28-132 | a sweep that leaves something over removes exactly the orders that cross, and each frees a slot |
| CrossingLaws.AmendUncrossed | LMAX-rs-main/src/blp/handlers.rs:296-385 | a modify keeps the book uncrossed exactly when it does not re-queue, or re-queues to a tick clear of the other side |
| CrossingLaws.RunUncrossedIff | LMAX-rs-main/src/blp/handlers.rs:23-412 | from an uncrossed book, a run keeps it uncrossed throughout exactly when every command is clean in that sense |
| CrossingLaws.RunUncrossed | LMAX-rs-main/src/blp/handlers.rs:23-412 | in particular places with sells on ticks, cancels and in-place modifies keep it uncrossed |
| Witnesses.ModifyCrosses | LMAX-rs-main/src/blp/handlers.rs:333-402 | a run from the empty book: for every bid price and every ask price on a higher tick, a modify of the bid to the ask's price leaves the book crossed |
| CrossingLaws.UnalignedSellLocks | LMAX-rs-main/src/blp/book.rs:89-100 | for every sell price between two ticks, a buy at the tick below and a sell at that price end up resting on one tick |
| BookLaws.PlaceLimitNamed | LMAX-rs-main/src/blp/handlers.rs:148-153 | a limit order keeps every resting order named by the index exactly when it does not come to rest under the key of an order that its sweep does not fill |
| BookLaws.RunNamed | LMAX-rs-main/src/blp/handlers.rs:23-412 | the index names every resting order throughout a run exactly when no place reuses a live id in that sense |
| BookLaws.NewKeysNoReuse | LMAX-rs-main/src/blp/handlers.rs:148-153 | clients that never place two orders under one id, nor under one still in the index, reuse none over the whole run |
| NameLaws.StepTakesName | LMAX-rs-main/src/blp/matching.rs:91-98 | for every resting order that the index names, whatever became of the others: after a command it is gone, or still named exactly when the command brings no order to rest under its key and completely fills no other order of its key |
| NameLaws.RunNamedWhileResting | LMAX-rs-main/src/blp/handlers.rs:23-412 | over every run: an order is named for as long as it rests exactly when no command takes its name in one of these two ways |
| NameLaws.NamesakeIsNameless | LMAX-rs-main/src/blp/matching.rs:98-98 | the order whose fill takes the name was itself without one |
| NameLaws.CancelsIffNamed | LMAX-rs-main/src/blp/handlers.rs:180-234 | a resting order is cancelled by its client's cancel exactly when the index names it, and is left as it is otherwise |
| Witnesses.FillTakesName | LMAX-rs-main/src/blp/matching.rs:91-98 | a run from the empty book: two SELLs under one id, a BUY that fills the first, and the second still rests but its cancel is rejected |
| OrphanLaws.UnnamedIsNameless | LMAX-rs-main/src/blp/handlers.rs:148-153 | a resting order that its own key does not name is not named by any entry |
| OrphanLaws.CancelOrModifyKeeps | LMAX-rs-main/src/blp/handlers.rs:180-412 | a cancel or modify, under whatever key, leaves an order the index does not name exactly as it is |
| OrphanLaws.PlaceKeeps | LMAX-rs-main/src/blp/handlers.rs:23-177 | a place takes from every resting order exactly what its fills say, and gives no name to an order that has none |
| OrphanLaws.RunOrphan | LMAX-rs-main/src/blp/handlers.rs:23-412 | over every run: an order the index does not name is never named again, and only fills change or remove it, by exactly what they say |
| OrphanLaws.RunGone | LMAX-rs-main/src/blp/handlers.rs:23-412 | once it is gone its id is never given out, filled or named again |
| Witnesses.ReuseOrphans | LMAX-rs-main/src/blp/handlers.rs:148-153 | a run from the empty book: two orders under one key, of which one cancel removes the second, the next is rejected, and the first still rests |
| BookLaws.NamedBijection | LMAX-rs-main/src/blp/handlers.rs:148-153 | then index and book are in bijection: keys find orders, and distinct orders have distinct keys |
| BookLaws.AmendNamed | LMAX-rs-main/src/blp/handlers.rs:354-394 | a modify never takes the name of another order |
| BookLaws.ReductionKeepsOrder | LMAX-rs-main/src/blp/handlers.rs:296-331 | an in-place reduction leaves every order of both queues in its place |
| BookLaws.RequeueGoesToTail | LMAX-rs-main/src/blp/handlers.rs:349-411 | a re-queued order keeps its id, goes behind every order of its new tick or better and ahead of all worse ones, and all others keep their relative order |
| BookLaws.RejectedModify | LMAX-rs-main/src/blp/handlers.rs:287-366 | a modify is rejected exactly for zero quantity or a price off the ladder, leaves the exchange alone in the first case only, and destroys the order otherwise |
| Witnesses.RejectedAndGone | LMAX-rs-main/src/blp/handlers.rs:349-366 | a run from the empty book: a modify below the base price is reported as rejected and the book is empty after it |
| EventBuffers.Kept | LMAX-rs-main/src/consumer/blp.rs:90-101 | what is kept of a command's events is a prefix of them, all of them up to sixteen and sixteen of any more |
| EventBuffers.EventBuffer.Emit | LMAX-rs-main/src/consumer/blp.rs:90-101 | the event is buffered while there is room among the sixteen and dropped after that |
| EventBuffers.EventBuffer.Drain | LMAX-rs-main/src/consumer/blp.rs:152-153 | a prefix of the events emitted, of length sixteen or all of them if there are fewer |
| EventLaws.FillCount | LMAX-rs-main/src/blp/matching.rs:28-132 | how many orders a sweep trades with, from the queue before it |
| EventLaws.EventCount | LMAX-rs-main/src/blp/handlers.rs:37-234 | every command but a place that reaches matching emits one event; such a place emits its fills, and one more if it is not filled |
| EventLaws.NothingLost | LMAX-rs-main/src/consumer/blp.rs:90-101 | a command loses no event exactly when it does not reach matching, or is left with something and crosses at most 15 orders, or is filled by the first 16 |
| Witnesses.SeventeenthFillLost | LMAX-rs-main/src/consumer/blp.rs:90-101 | a run from the empty book: seventeen unit orders swept by one market order, seventeen fills, sixteen kept |
| BusinessLogic.BusinessLogicProcessor.Execute | LMAX-rs-main/src/consumer/blp.rs:90-146 | a fresh buffer, the handlers, the kept events: the abstract step on the real engine, and a prefix of its events, sixteen or all of them if there are fewer |
| BusinessLogic.BusinessLogicProcessor.OnSlot | LMAX-rs-main/src/consumer/blp.rs:72-175 | one input cell: a message without a command changes nothing and gives no output; otherwise the output is, event by event, the first sixteen events of the command, each with the cell's timestamp |
| Pipeline.ResponseIs | LMAX-rs-main/src/consumer/blp.rs:72-175 | the reference the pipeline is compared with, in numbers: nothing for no command, otherwise the first sixteen events of its step in order, each with the timestamp given |
| DeliveryLaws.AtFirst | LMAX-rs-main/src/consumer/blp.rs:61-64 | before the first message: an empty exchange, next id 1, no output |
| DeliveryLaws.MessageOutput | LMAX-rs-main/src/consumer/blp.rs:66-178 | what each message adds to the sequential output: nothing when it does not parse, otherwise the first sixteen events of its command, event by event, each with the timestamp of that message |
| DeliveryLaws.DeliveredIs | LMAX-rs-main/src/blp/publisher.rs:15-30 | under every schedule the j-th delivery is one of the first sixteen events of a parsed message, with that message's timestamp, and ahead of it are exactly the output of the messages before and the earlier events of its own |
| BusinessLogic.ProcessAll | LMAX-rs-main/src/consumer/blp.rs:66-178 | the real reader and the real engine over any list of messages produce exactly the output the pipeline is proved to deliver |
| Wire.ParseIffEncoded | LMAX-rs-main/src/consumer/unmarshallerConsumer.rs:66-180 | parsing returns a command exactly when the buffer starts with that command's encoding and its time in force is on the wire |
| Wire.RoundTrip | LMAX-rs-main/src/main.rs:102-115 | what is encoded parses back, whatever bytes follow |
| WireLayout.ParsedBytes | LMAX-rs-main/src/consumer/unmarshallerConsumer.rs:66-180 | what every buffer parses to, by the values of its bytes at fixed places: which command, each number as the sum of eight bytes times powers of 256, the codes of side, order type, flags and time in force, and otherwise which error comes first |
| WireLayout.EncodedPlace | LMAX-rs-main/src/main.rs:102-115 | length, tag, and each field's place and bytes in an encoded place |
| WireLayout.EncodedCancel | LMAX-rs-main/src/consumer/unmarshallerConsumer.rs:104-109 | the same for a cancel |
| WireLayout.EncodedModify | LMAX-rs-main/src/consumer/unmarshallerConsumer.rs:111-118 | the same for a modify |
| Wire.PrefixFree | LMAX-rs-main/src/consumer/unmarshallerConsumer.rs:66-180 | no encoding is a proper prefix of another |
| Wire.Truncated | LMAX-rs-main/src/single_producer/singleProducer.rs:39-45 | a slot holds a prefix of the message, 256 bytes or all of it if it is shorter |
| Wire.TruncationHarmless | LMAX-rs-main/src/single_producer/singleProducer.rs:39-45 | cutting a message to 256 bytes changes neither the command parsed nor the error |
| Wire.Cursor.NextPlace | LMAX-rs-main/src/consumer/unmarshallerConsumer.rs:82-102 | the cursor's reads return the fields or the first error, and leave the cursor after the fields |
| Wire.Cursor.NextModify | LMAX-rs-main/src/consumer/unmarshallerConsumer.rs:111-118 | the same for modify |
| Wire.Cursor.NextOption | LMAX-rs-main/src/consumer/unmarshallerConsumer.rs:174-180 | the same for an optional integer |
| Wire.Cursor.NextU64 | LMAX-rs-main/src/consumer/unmarshallerConsumer.rs:129-137 | the same for a little-endian integer |
| Wire.ParseCommand | LMAX-rs-main/src/consumer/unmarshallerConsumer.rs:66-80 | succeeds exactly on buffers that start with an encoding, and returns that command |
| RingBuffers.MaskIsMod | LMAX-rs-main/src/ring_buffer/ringBuffer.rs:36-54 | masking by one less than a power of two is the remainder by it |
| RingBuffers.WindowInjective | LMAX-rs-main/src/ring_buffer/ringBuffer.rs:36-54 | different sequence numbers less than a capacity apart have different cells |
| RingBuffers.RingBuffer.constructor | LMAX-rs-main/src/ring_buffer/ringBuffer.rs:16-30 | as many cells as the capacity, which is a power of two |
| RingBuffers.RingBuffer.Capacity | LMAX-rs-main/src/ring_buffer/ringBuffer.rs:32-34 | `mask + 1` is the number of cells |
| RingBuffers.RingBuffer.Cell | LMAX-rs-main/src/ring_buffer/ringBuffer.rs:36-54 | `seq & mask` is a cell, the one the pipeline's index names |
| RingBuffers.RingBuffer.Write | LMAX-rs-main/src/ring_buffer/ringBuffer.rs:36-54 | a write is read back under its own number and unseen under every other number of a window of one capacity |
| PipelineSafety.RunInv | LMAX-rs-main/src/consumer/blp.rs:66-178 | every schedule keeps the pipeline's invariant: windows, what each cell holds, where the engine is, what is pending, published and read |
| PipelineSafety.DeliveredIsPrefix | LMAX-rs-main/src/consumer/outputConsumer.rs:31-49 | under every schedule the (event, timestamp) pairs read from the output ring are a prefix of parsing and processing the messages one by one: nothing lost, doubled or reordered |
| PipelineSafety.ReachableWindows | LMAX-rs-main/src/single_producer/singleProducer.rs:22-54 | in every reachable state `blp <= every upstream sequence <= producer <= blp + capacity`, the claimed number included, and the same for the output ring |
| PipelineAccess.WritesAreListed | LMAX-rs-main/src/ring_buffer/ringBuffer.rs:36-54 | a step changes only those fields of cells that its list of accesses says it writes |
| PipelineAccess.ReadsAreListed | LMAX-rs-main/src/ring_buffer/ringBuffer.rs:36-54 | a step reads only those fields of cells that its list says it reads: states that agree on them, on the sequences and on the thread's own variables give the same effect |
| PipelineAccess.ViewDecidesAccesses | LMAX-rs-main/src/single_producer/singleProducer.rs:36-54 | which cells a step accesses depends on the sequences and the thread's own variables alone |
| PipelineAccess.NoConflicts | LMAX-rs-main/src/ring_buffer/ringBuffer.rs:36-54 | in no reachable state are two threads about to access the same field of the same cell with one of them writing |
| PipelineAccess.MeetIff | LMAX-rs-main/src/ring_buffer/ringBuffer.rs:50-54 | in a reachable state two threads are about to access one cell, one of them writing, exactly when one is the unmarshaller storing the command of a message and the other is an upstream consumer reading that message |
| PipelineAccess.CellIsShared | LMAX-rs-main/src/consumer/unmarshallerConsumer.rs:36-59 | six steps from the start lead to such a state, for every further upstream consumer |
| PipelineSafety.BarrierSound | LMAX-rs-main/src/sequence_barrier/sequenceBarrier.rs:16-24 | when the barrier lets the BLP through, every dependency has reached the number waited for, although they were read one at a time, and stays there for the rest of the run |
| PipelineSafety.SingleWriterMonotone | LMAX-rs-main/src/single_producer/singleProducer.rs:36-54 | every sequence is written by one thread only and only grows |
| PipelineSafety.UnmarshalInputs | LMAX-rs-main/src/consumer/unmarshallerConsumer.rs:36-59 | the unmarshaller stores, in the cell of every number up to its sequence, what that message parses to |
| PipelineSafety.BlpReads | LMAX-rs-main/src/consumer/blp.rs:67-88 | reading a released cell gives the engine exactly the next message of the sequential run |
| PipelineSafety.BlpWrites | LMAX-rs-main/src/blp/publisher.rs:15-30 | publishing an event spoils no cell that is still to be read |
| PipelineProgress.StepWorks | LMAX-rs-main/src/single_producer/singleProducer.rs:24-30 | every step decreases the work left by one, or only polls |
| PipelineProgress.Progress | LMAX-rs-main/src/single_producer/singleProducer.rs:24-30 | no deadlock: from every reachable state with work left, at most `2 * consumers + 2` steps do some |
| PipelineProgress.PollsThrough | LMAX-rs-main/src/sequence_barrier/sequenceBarrier.rs:16-24 | once every dependency has arrived, the barrier's loop ends within two passes |
| PipelineProgress.CanDrain | LMAX-rs-main/src/blp/publisher.rs:18-24 | from every reachable state all work can be done, in a number of steps bounded by it |
| PipelineProgress.DrainedIsComplete | LMAX-rs-main/src/consumer/outputConsumer.rs:31-49 | when no work is left the output consumer has read exactly the whole output |
| PipelineProgress.EverythingDelivered | LMAX-rs-main/src/consumer/blp.rs:66-178 | every schedule can be continued to one after which every event of every message has been delivered in order |
| PipelineFairness.RoundWorks | LMAX-rs-main/src/sequence_barrier/sequenceBarrier.rs:16-24 | a round that gives every thread a turn, and the BLP enough for two passes of its barrier, does some work if any is left |
| PipelineFairness.FairRoundsDrain | LMAX-rs-main/src/blp/publisher.rs:18-24 | from every reachable state, as many such rounds as there are steps of work left drain the pipeline, whatever the order within them |
| PipelineFairness.FairScheduleDelivers | LMAX-rs-main/src/consumer/blp.rs:66-178 | every schedule made of `(6 + 4 * consumers)` such rounds per message and 6 per event, or more, delivers every event of every message in order |
| PipelineFairness.EventuallyDelivered | LMAX-rs-main/src/consumer/blp.rs:66-178 | under every infinite schedule that gives each thread another turn after every moment, some finite part of it has delivered everything |
| PipelineProgress.InitialWork | LMAX-rs-main/src/consumer/blp.rs:66-178 | the work of a whole run, thread by thread |
| PipelineProgress.WorkBound | LMAX-rs-main/src/consumer/blp.rs:66-178 | no schedule does more than `(6 + 4 * consumers)` working steps per message and 6 per event |

## Left out

- Engines.Engine.Process: quantities, level totals, level counts and the next order id are naturals, so overflow of a 64-bit or 32-bit sum is not modelled.
- Handles.HandleSafety: generations wrap at 2^32 as in a release build; the panic of a debug build on that overflow is not modelled.
- Engines.Engine.ProcessPlace: the source creates an account entry for a client that places; an entry with a zero counter and no entry are the same to the model.
- Wire.ParseCommand: error messages are a datatype, one constructor for each text of the source.
- PipelineFairness.EventuallyDelivered: that the operating system's scheduler gives every thread another turn is its premise.
- PipelineAccess.NoConflicts: the write of a whole cell, and the read of a cell's command with its timestamp, are one step each; the guarantee covers the consumers in the BLP's barrier, and a consumer outside it is not protected by the producer's gate.
- BitMaps.BitMap.SetBit: the tick number is shifted and masked as an 18-bit vector, where the source has a machine word; the bitmap's own words are 64-bit vectors.
- Memory orderings weaker than sequential consistency: every sequence has one writer and is published with release and read with acquire.
- The ring's `cursor`, uninitialised cells, `Drop`, cache padding and unsafe access: cells are plain and start empty.
- Journal and replicator: stubs in the source, which take a reference to their cell and do nothing with it yet; here each is an upstream consumer charged with one read of the message's bytes, and what it does with them is not modelled.
- Spin loops and threads of the producer, the publisher, the barrier and the consumers as loops of their own: they are steps of the state machine, and a spin is a step that changes nothing.
- Clocks: the producer's timestamp is an input.
- Time-in-force semantics and symbols: the engine ignores the one and copies the other, and so does the model.
- The reject reasons InvalidSymbol and NoLiquidityForMarketOrder: nothing in the engine emits them.
- Thread start-up and the wiring in `main`, which starts no output consumer: the pipeline model has one.
- Benchmarks, CPU pinning and latency measurement.
