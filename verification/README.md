# A verified model of the exchange core

This project models a deterministic exchange and proves, for all inputs and all runs, that its fast
and concurrent parts agree with one simple specification. `dafny verify dfyconfig.toml` verifies it.

## Main results

- Any command sequence on the contiguous store is the reference run (`ContiguousStore.Store.RunAll`), any
  command on the intrusive and the baseline store is the reference step (`IntrusiveStore.Store.Apply`,
  `BaselineStore.Store.Apply`), and until a refusal a bounded store is indistinguishable from the baseline
  by its trades and by every query (`Storages.AgainstBaseline`).
- The engine object owns its books, each on its own storage in its own memory, and does what the engine's
  transition function does (`EngineClass.MatchingEngine.Apply`, `EngineClass.OrderGateway.ApplyCommand`).
- Orders do what traders are told, stated in prices, quantities and places alone: no trade beyond the limit and
  none missed within it, time priority kept by a reduction and lost by any other change
  (`BookLaws.LimitIsRespected`, `BookLaws.LimitTradesAllWithin`, `BookLaws.ReductionKeepsPlace`,
  `BookLaws.ChangeLosesPlace`). What is gone stays gone over whole runs (`BookLaws.GoneStaysGone`).
- The gates are exact: a storage refuses exactly what it could not hold, no admitted remainder is lost and no
  applied modify drops its order (`BookLaws.RefusesExactly`, `BookTheorems.AdmittedLimitIsKept`,
  `BookTheorems.ModifyNeverDrops`). So are the risk checks, reason by reason (`EngineLaws.LimitVerdict`).
- The three-thread pipeline over the real rings, interleaved at single loads and stores, ends in the
  single-threaded result for every schedule and capacity, is never stuck, does a bounded number of working
  steps, and finishes under every fair schedule (`RingPipeline.FinishedIsSequential`,
  `RingPipeline.NeverStuck`, `RingProgress.RingWorkIsBounded`, `RingProgress.FairRunsFinish`).
- Renumbering a stream is idempotent and isomorphic through gateway and engine
  (`Renumber.RenumberIdempotent`, `RenumberIso.RenumberIsIsomorphic`); the shrinker terminates in an
  irreducible failing stream (`Shrink.Shrink`).
- A bounded session never exceeds its limit and stops between whole frames; chunking does not matter
  (`Session.NeverOverLimit`, `Session.StopsBetweenFrames`, `Session.ChunkingDoesNotMatter`). A client that
  decodes the output learns exactly what the gateway did with its requests (`ClientSession.ClientLearns`,
  `ClientSession.Converse`).
- Recovery finds the longest valid prefix, classifies every cut, repairs without loss, and replay repeats
  the session (`EventLog.RecoveryIsLongest`, `EventLog.CutLog`, `EventLog.RepairIsLossless`,
  `Replay.ReplayRepeatsTheSession`). A torn tail is confined to the final record exactly when the damaged
  length field does not reach over later records (`LogDamage.TornTailIsTheLastRecord`).
- Publishing appends exactly the messages it should, subscribers agree with the engine after every run, and
  reported gaps are the losses (`Feed.RunAndPublish`, `Feed.TrackAll`).
- The codecs are lossless and accept exactly what they should; one damaged byte is caught anywhere in front of
  a FIX CheckSum and anywhere in a log record but its length field (`FixCodec.NewOrderRoundTrip`, `FixCodec.OrderMeans`, `Layouts.OrderLayout`,
  `FixDamage.DamageIsCaught`, `LogDamage.OneByteIsCaught`).

## How it is built

**One specification.** `BookSpec` says what a single-symbol order book is: two sequences of orders in
price-time priority, with matching, limit, market, cancel and modify as pure functions, and the gates
by which a bounded storage refuses a remainder. `BookTheorems` proves what matching conserves, what
every reachable book satisfies, and that a bounded storage is the baseline until it refuses something.
`BookLaws` says what the specification means without using its own vocabulary, and `EngineLaws` does the
same for the engine's reports and the gateway's verdicts.

**Three storages, three representation invariants.** `BaselineStore` (over `PriceMap`) is the sorted
map of FIFO lists with an id index. `ContiguousStore` (over `FlatLevels`, `FlatIndex` and `Bitmap`) is
the price-indexed array with occupancy bitmaps, a head cursor, tombstones and compaction that rewrites
locators. `IntrusiveStore` (over `NodeChains`, `NodeRep` and `SlotPool`) is the doubly linked nodes over
two fixed pools with free lists. Each is a class whose methods loop and update in place, and each
method is proved to do to the book, or to answer about it, exactly what the specification says.
`BookClass` is the book on a storage chosen at construction, and `Storages` runs one on any storage side
by side with one on the baseline.

**Engine, gateway, session.** `Engine` and `Gateway` are transition functions over a map of books and a
sequence counter; `EngineClass` holds the objects proved against them, the engine with a map of `BookClass`
books that share no memory. `Wire`, `Session` and `SessionClass` add the byte-level session with its output
limit. `WireReplies` is its client, `FieldWidths` says that engine values keep fitting the wire fields, and
`ClientSession` puts client and session together.

**Concurrency.** `Ring` splits every queue operation into its single loads, slot accesses and stores and
considers every interleaving. `Pipeline` is the three-thread pipeline over atomic bounded queues; each
thread's next step is determined by its own position and the shared state, so an interleaving is a
sequence of thread names. `RingPipeline` puts the two together: the same threads over the real rings,
interleaved at single loads and stores, refine the pipeline over atomic queues. `RingProgress` bounds the
work of any run and shows that fair schedules finish.

**Logs and tools.** `EventLog` (over `Checksums`), `CommandCodec` and `Replay` are framing, recovery, repair
and replay, and `LogDamage` is what recovery makes of damage; `Layouts` is every byte layout, offset by offset;
`Renumber`, `RenameBook`, `RenumberIso` and `Shrink` are the shrinker; `Feed` is market data; `FixText` and
`FixCodec` are the FIX text codec (FIX 4.2 framing, CheckSum as in Appendix B of FIX 4.2), and `FixDamage` is
what its CheckSum guards against.

Capacities stay symbolic: band limits, compaction threshold, pool capacity, ring capacities and byte
limits are parameters of the classes or of the theorems.

## Where the code decides

- The payload size of a recorded limit order is 28 bytes although its fields add up to 27
  (src/replay/command.cpp:18); the model writes the trailing zero byte the code writes.
- The intrusive and contiguous stores test their gate before the duplicate-id test, the baseline only
  the latter (src/engine/order_book.cpp:394-409, src/engine/order_book.cpp:691-709); both refuse
  without effect, so the specification names one condition.
- A torn tail is documented as damage confined to the final record (include/qsl/replay/event_log.hpp:85,
  docs/persistence.md:56). A length field changed so that the frame ends with the log makes the code report
  a torn tail over later intact records (src/replay/event_log.cpp:166-171). The model keeps the code's
  answer, exhibits such a log and states exactly when the promise holds.
- The header promises that a session stops before any frame would exceed the limit
  (include/qsl/gateway/session.hpp:26-30); that is proved for every real limit. The largest `size_t`
  switches the budget test off (src/gateway/session.cpp:132-136) and is modelled as no limit.

## Model

| member | source | states |
|---|---|---|
| BookTheorems.MatchConsumesPrefix | src/engine/order_book.cpp:117-150 | for every taker and side, matching removes exactly a prefix of the side in priority order, with at most the last maker partly filled |
| BookTheorems.MatchConserves | src/engine/order_book.cpp:143-150 | submitted quantity = traded + remainder, and what the makers lose is what is traded |
| BookTheorems.MatchTakesAllItCan | src/engine/order_book.cpp:117-129 | a remainder is left only when no eligible quantity is left: traded = min(quantity, eligible quantity) |
| BookTheorems.MatchLeavesNoCross | src/engine/order_book.cpp:117-129 | after a match with a remainder the front of the opposite side no longer crosses the taker |
| BookTheorems.LimitKeepsBook | src/engine/order_book.cpp:691-709 | a limit order on any storage keeps the book sorted, uncrossed, free of empty quantities and duplicate ids, and within the storage |
| BookTheorems.CancelRemoves | src/engine/order_book.cpp:738-746 | cancel takes out exactly the named order: the rest of its side and the whole other side keep their order |
| BookTheorems.ModifyKeepsBook | src/engine/order_book.cpp:748-772 | modify (cancel, in-place reduction, or cancel-and-re-add) keeps every book invariant |
| BookTheorems.AdmittedLimitIsKept | src/engine/order_book.cpp:379-409 | an admitted GTC remainder always rests: the ignored result of the internal rest call is never a silent loss |
| BookTheorems.ModifyReAddIsAdmitted | src/engine/order_book.cpp:857-864 | the re-add half of an applied modify always passes the storage gate a second time |
| BookTheorems.ModifyNeverDrops | src/engine/order_book.cpp:430-448 | an applied modify never loses the order: it rests afterwards or its whole new quantity traded |
| BookTheorems.RunKeepsBook | src/engine/order_book.cpp:691-772 | every book reachable by any command sequence on any storage satisfies all book invariants |
| BookTheorems.RefusalChangesNothing | include/qsl/engine/order_book.hpp:25-46 | a refused command leaves the book as it was and trades nothing |
| BookTheorems.RunAgreesWithBaseline | include/qsl/engine/order_book.hpp:25-46 | as long as no command is refused, a bounded storage gives the same trades and the same book as the baseline over the whole run |
| BookTheorems.RestoreRebuilds | include/qsl/engine/order_book.hpp:96-100 | re-adding the resting orders of any reachable book in listed order neither trades nor is refused and rebuilds that book |
| BookLaws.PricesInOrder | docs/matching_rules.md:24-27 | in every book that satisfies the invariants bids fall, asks rise, and every bid is below every ask |
| BookLaws.LimitIsRespected | src/engine/order_book.cpp:569-574 | no limit order, on any storage and in any book, trades at a price worse than its limit |
| BookLaws.LimitTradesAllWithin | docs/matching_rules.md:33-40 | an admitted limit order trades the smaller of its quantity and the sum of what rests at or better than its limit |
| BookLaws.MarketSweeps | docs/matching_rules.md:35-36 | a market order trades the smaller of its quantity and the whole opposite side, never rests, and leaves a remainder only when that side is empty |
| BookLaws.RemainderRests | docs/matching_rules.md:50-51 | a good-till-cancelled remainder stands behind every order of its price or better and before every worse one; an immediate-or-cancel remainder is dropped; the rest of the side is untouched |
| BookLaws.ReductionKeepsPlace | docs/matching_rules.md:66-68 | a same-price reduction, on every storage, changes that quantity in place and nothing else |
| BookLaws.ChangeLosesPlace | docs/matching_rules.md:69-74 | any other applied modify takes the order out, trades what rests within the new price, and puts the remainder behind every order of its new price |
| BookLaws.ModifyToNothing | docs/matching_rules.md:71-71 | a modify to zero takes exactly that order out |
| BookLaws.GoneStaysGone | docs/invariants.md:14-15 | an order that was cancelled, refused or filled neither trades nor rests again in any run that does not submit its id anew |
| BookLaws.LimitGateIsExact | include/qsl/engine/order_book.hpp:25-46 | a limit order is refused exactly when the storage could not hold the book it would leave |
| BookLaws.ModifyGateIsExact | include/qsl/engine/order_book.hpp:85-90 | a modify is refused exactly when the storage could not hold the book it would leave |
| BookLaws.RefusesExactly | include/qsl/engine/order_book.hpp:25-46 | the same for every command |
| BookLaws.BestIsBest | include/qsl/engine/order_book.hpp:76-77 | the best bid is the highest bid and the best ask the lowest ask, and there is none on an empty side only |
| BookLaws.OneOrderMore | include/qsl/engine/order_book.hpp:78-78 | one order more adds its quantity at its own price and nothing at any other |
| BookLaws.LevelsAreTotals | include/qsl/engine/order_book.hpp:92-94 | levels come best price first, one per price, each with all that rests there, and no price is missing |
| BookLaws.ListsEveryOrder | include/qsl/engine/order_book.hpp:96-100 | the listing holds every resting order and no other, bids before asks, each side best first |
| MatchSteps.ScannedStep | src/engine/order_book.cpp:341-347 | one node of a dry run accounts for exactly what the real match would do with that maker: remainder, makers used up, trades |
| MatchSteps.ScannedStops | src/engine/order_book.cpp:357-377 | a finished dry run has the remainder, the number of trades and the number of used-up makers of the real match |
| Bitmap.LowMaskIs | src/engine/contiguous_store.hpp:92-103 | the shift-and-decrement mask keeps exactly the bits up to the requested one |
| Bitmap.CountTrailingZeros | src/engine/contiguous_store.hpp:78-89 | the lowest set bit of a nonzero word |
| Bitmap.HighestBit | src/engine/contiguous_store.hpp:92-103 | the highest set bit of a nonzero word |
| Bitmap.Occupancy.SetBit | src/engine/contiguous_store.hpp:70-72 | adds exactly one slot to the occupied set |
| Bitmap.Occupancy.ClearBit | src/engine/contiguous_store.hpp:73-75 | removes exactly one slot from the occupied set |
| Bitmap.Occupancy.NextUp | src/engine/contiguous_store.hpp:78-89 | the nearest occupied slot at or above the start, or none if there is none |
| Bitmap.Occupancy.NextDown | src/engine/contiguous_store.hpp:92-103 | the nearest occupied slot at or below the start, or none if there is none |
| FlatIndex.KillKeepsIndex | src/engine/contiguous_store.hpp:251-265 | a tombstone plus an index erase keeps every other locator pointing at its own live order |
| FlatIndex.CompactKeepsIndex | src/engine/contiguous_store.hpp:145-159 | compaction moves every live order down and rewrites its locator; the index is right again afterwards |
| FlatIndex.KillIsCancel | src/engine/contiguous_store.hpp:251-270 | writing a tombstone is the reference cancel on the book the levels stand for |
| FlatIndex.AppendIsInsert | src/engine/contiguous_store.hpp:168-182 | appending to a price slot is the price-time insert of the reference book |
| ContiguousStore.Store.constructor | src/engine/contiguous_store.hpp:22-66 | a fresh store is the empty book on its price band |
| ContiguousStore.Store.LevelFacts | src/engine/contiguous_store.hpp:27-40 | in every valid store a bit is set exactly when its level has live orders, the head is the first live position, and dead entries number at most max(threshold - 2, alive) |
| ContiguousStore.Store.BestSlot | src/engine/contiguous_store.hpp:105-107 | bitmap search finds the best occupied price of a side |
| ContiguousStore.Store.AdvanceHead | src/engine/contiguous_store.hpp:129-133 | the cursor moves to the first live entry |
| ContiguousStore.Store.CompactLevel | src/engine/contiguous_store.hpp:145-159 | the in-place loop leaves exactly the live entries in order, head zero, and the stepwise relocated index |
| ContiguousStore.Store.MaybeCompact | src/engine/contiguous_store.hpp:161-166 | after the threshold test the level meets the dead-entry bound and the book is unchanged |
| ContiguousStore.FillAllMatches | src/engine/contiguous_store.hpp:184-197 | filling makers in place while a level lasts is the reference match over that level |
| ContiguousStore.Store.FillLevel | src/engine/contiguous_store.hpp:193-197 | the loop leaves the level, index, trades and remainder of that fill |
| ContiguousStore.Store.MatchAgainst | src/engine/contiguous_store.hpp:199-218 | trades, remainder and remaining makers are those of the reference match |
| ContiguousStore.Store.Rest | src/engine/contiguous_store.hpp:168-182 | rests exactly when the price is in band, behind its price level |
| ContiguousStore.Store.RemoveResting | src/engine/contiguous_store.hpp:251-265 | tombstone, head advance, bit clear and compaction together are the reference cancel |
| ContiguousStore.Store.Cancel | src/engine/contiguous_store.hpp:267-270 | true exactly when the id rests, and then the reference cancel |
| ContiguousStore.Store.SimulateRemainder | src/engine/contiguous_store.hpp:327-341 | the simulated remainder is the remainder of the real match |
| ContiguousStore.Store.FillCount | src/engine/contiguous_store.hpp:343-367 | the dry run counts exactly the trades of the real match |
| ContiguousStore.Store.CanStoreLimit | src/engine/contiguous_store.hpp:369-375 | the gate of the specification: IOC, in band, or no remainder |
| ContiguousStore.Store.CanApplyModify | src/engine/contiguous_store.hpp:284-299 | the modify gate of the specification |
| ContiguousStore.Store.AddLimit | src/engine/contiguous_store.hpp:225-239 | book and trades are those of the reference limit order, refusal included |
| ContiguousStore.Store.AddMarket | src/engine/contiguous_store.hpp:241-249 | book and trades are those of the reference market order |
| ContiguousStore.Store.Modify | src/engine/contiguous_store.hpp:301-324 | book and trades are those of the reference modify, refusal included |
| ContiguousStore.Store.QuantityAtPrice | src/engine/contiguous_store.hpp:395-400 | the resting quantity at exactly that price of the reference book |
| ContiguousStore.Store.LevelViews | src/engine/contiguous_store.hpp:416-424 | price levels with totals, best first, of the reference book |
| ContiguousStore.Store.RestingOrders | src/engine/contiguous_store.hpp:432-451 | all resting orders in priority order, bids then asks |
| ContiguousStore.Store.RunAll | src/engine/contiguous_store.hpp:225-324 | any command sequence gives the reference run, through tombstones, compaction, locator rewriting and id reuse |
| PriceMap.PushIsInsert | src/engine/order_book.cpp:652-656 | pushing onto the tail of a price level is the price-time insert |
| PriceMap.ErasedLevel | src/engine/order_book.cpp:724-736 | erasing an order from its level, and an empty level from its map, is the reference cancel |
| BaselineStore.Store.MatchAgainst | src/engine/order_book.cpp:597-602 | trades, remainder and remaining makers are those of the reference match; index and levels stay in agreement |
| BaselineStore.Store.Rest | src/engine/order_book.cpp:652-656 | rests behind its price level; the new locator is the side, the price and the list node, named by the order that node holds |
| BaselineStore.Store.AddLimit | src/engine/order_book.cpp:691-709 | book and trades are those of the reference limit order |
| BaselineStore.Store.AddMarket | src/engine/order_book.cpp:711-722 | book and trades are those of the reference market order |
| BaselineStore.Store.Cancel | src/engine/order_book.cpp:738-746 | true exactly when the id rests, and then the reference cancel |
| BaselineStore.Store.Modify | src/engine/order_book.cpp:748-772 | book and trades are those of the reference modify |
| BaselineStore.Store.FillCount | src/engine/order_book.cpp:612-635 | the dry run counts exactly the trades of the real match |
| BaselineStore.Store.ContainsOrder | src/engine/order_book.cpp:819-823 | an id is indexed exactly when it rests in the reference book |
| BaselineStore.Store.BestPriceOf | src/engine/order_book.cpp:682-689 | the first map key is the best price of the reference book |
| BaselineStore.Store.QuantityAtPrice | src/engine/order_book.cpp:786-811 | the list at that price adds up to the resting quantity at exactly that price of the reference book; an absent level gives zero |
| BaselineStore.Store.LevelViews | src/engine/order_book.cpp:866-879 | price levels with totals, best first, of the reference book |
| BaselineStore.Store.RestingOrders | src/engine/order_book.cpp:893-914 | all resting orders in priority order, bids then asks |
| BaselineStore.Store.Count | src/engine/order_book.cpp:813-817 | the index has as many entries as orders rest |
| BaselineStore.Store.Apply | src/engine/order_book.cpp:691-772 | any command does to the levels and the index what the reference does to the book |
| SlotPool.Pool.TryAcquire | include/qsl/memory/order_pool.hpp:33-44 | fails exactly on an empty free list; otherwise hands out a dead slot and marks it live |
| SlotPool.Pool.Release | include/qsl/memory/order_pool.hpp:46-55 | a live slot goes back exactly once; a dead or foreign slot is refused and nothing changes |
| SlotPool.Pool.Counts | include/qsl/memory/order_pool.hpp:30-31 | live slots plus free slots are the capacity: the free list holds exactly the dead slots, once each |
| NodeChains.AppendKeepsChain | src/engine/order_book.cpp:202-212 | linking behind the tail extends the FIFO chain by one node, with head, tail, size and links right |
| NodeChains.UnlinkKeepsChain | src/engine/order_book.cpp:214-226 | unlinking any node leaves a well-formed chain of the others in the same order |
| NodeRep.DroppedOk | src/engine/order_book.cpp:248-253 | unlinking and freeing a node keeps all chains of both sides, the bijection of pools and index, and coverage |
| NodeRep.AddedOk | src/engine/order_book.cpp:269-283 | linking in a fresh node keeps all chains of both sides, the bijection and coverage |
| NodeRep.SlotsInStep | src/engine/order_book.cpp:187-199 | live nodes, live orders and index entries are equally many |
| IntrusiveStore.IndexIsTheBook | src/engine/order_book.cpp:421-428 | an id is indexed exactly when it rests, and its locator leads to its own order |
| IntrusiveStore.Store.ChainFacts | src/engine/order_book.cpp:202-226 | in every valid store each level is a non-empty FIFO chain with matching head, tail, size and prev/next links, holding only its own orders |
| IntrusiveStore.Store.PoolFacts | src/engine/order_book.cpp:187-200 | in every valid store live order slots, live node slots and index entries are in bijection and the rest is free |
| IntrusiveStore.Store.TakeOut | src/engine/order_book.cpp:228-231 | index erase, unlink and both releases drop exactly one node |
| IntrusiveStore.Store.EraseIfEmpty | src/engine/order_book.cpp:241-246 | a level goes exactly when its chain is empty |
| IntrusiveStore.Store.FillLevel | src/engine/order_book.cpp:315-319 | filling a level does to the book what the reference match does while that level lasts |
| IntrusiveStore.Store.MatchAgainst | src/engine/order_book.cpp:321-326 | trades, remainder and remaining makers are those of the reference match |
| IntrusiveStore.Store.Rest | src/engine/order_book.cpp:285-299 | rests exactly when both pools have a slot; on failure the acquired order slot is given back and nothing changed |
| IntrusiveStore.Store.Cancel | src/engine/order_book.cpp:421-428 | true exactly when the id rests, and then the reference cancel |
| IntrusiveStore.Store.SimulateMatch | src/engine/order_book.cpp:357-377 | walking the next pointers predicts the remainder and the number of freed makers of the real match |
| IntrusiveStore.Store.CapacityIsCount | src/engine/order_book.cpp:198-200 | the free lists say there is capacity exactly when fewer orders rest than the pools hold |
| IntrusiveStore.Store.CanStoreLimit | src/engine/order_book.cpp:379-392 | the gate of the specification: IOC, free slots, no remainder, or a maker freed by the match |
| IntrusiveStore.Store.AddLimit | src/engine/order_book.cpp:394-409 | book and trades are those of the reference limit order; an admitted remainder always finds its slots |
| IntrusiveStore.Store.AddMarket | src/engine/order_book.cpp:411-419 | book and trades are those of the reference market order |
| IntrusiveStore.Store.Modify | src/engine/order_book.cpp:430-448 | book and trades are those of the reference modify |
| IntrusiveStore.Store.FillCount | src/engine/order_book.cpp:479-507 | the dry run counts exactly the trades of the real match |
| IntrusiveStore.Store.ContainsOrder | src/engine/order_book.cpp:477-477 | an id is indexed exactly when it rests in the reference book |
| IntrusiveStore.Store.BestPriceOf | src/engine/order_book.cpp:450-456 | the first map key is the best price of the reference book |
| IntrusiveStore.Store.QuantityAtPrice | src/engine/order_book.cpp:458-474 | walking the next pointers of one level adds up the resting quantity at exactly that price of the reference book |
| IntrusiveStore.Store.LevelViews | src/engine/order_book.cpp:509-524 | walking every chain gives the price levels with totals, best first, of the reference book |
| IntrusiveStore.Store.RestingOrders | src/engine/order_book.cpp:526-541 | walking every chain gives all resting orders in priority order, bids then asks |
| IntrusiveStore.Store.Count | src/engine/order_book.cpp:476-476 | the index has as many entries as orders rest |
| IntrusiveStore.Store.Apply | src/engine/order_book.cpp:394-448 | any command does to chains, pools and index what the reference does to the book; the duplicate-insert branch is written and proved unreachable |
| BookClass.OrderBook.constructor | src/engine/order_book.cpp:548-566 | a new book on any storage is the empty book and owns fresh memory |
| BookClass.OrderBook.CanStoreLimit | src/engine/order_book.cpp:847-855 | the gate of the specification on whichever storage the book has |
| BookClass.OrderBook.CanApplyModify | src/engine/order_book.cpp:857-864 | the modify gate of the specification on whichever storage the book has |
| BookClass.OrderBook.FillCount | src/engine/order_book.cpp:825-845 | exactly the number of trades the order would make, on whichever storage the book has |
| BookClass.OrderBook.AddLimit | src/engine/order_book.cpp:691-709 | book and trades are those of the reference limit order, on whichever storage the book has |
| BookClass.OrderBook.AddMarket | src/engine/order_book.cpp:711-722 | book and trades are those of the reference market order, on whichever storage the book has |
| BookClass.OrderBook.Cancel | src/engine/order_book.cpp:738-746 | true exactly when the id rests, and then the reference cancel, on whichever storage the book has |
| BookClass.OrderBook.Modify | src/engine/order_book.cpp:748-772 | book and trades are those of the reference modify, on whichever storage the book has |
| Storages.Ask | src/engine/order_book.cpp:774-914 | best prices, levels, listed orders, count and quantity at a price are those of the reference book, on every storage |
| Storages.AgainstBaseline | include/qsl/engine/order_book.hpp:25-46 | run side by side on any unrefused command sequence, a book on any storage and one on the baseline return the same trades, hold the same book, and answer every query alike after every command |
| Storages.FromEmpty | include/qsl/engine/order_book.hpp:25-46 | from two new books: a command stream the storage never refuses cannot tell it from the baseline by trades or by queries |
| Engine.RegisterKeepsEngine | src/engine/matching_engine.cpp:9-32 | registration is idempotent per name, hands out ids in order, gives a new id an empty book, and leaves every other name, id and book alone |
| Engine.PerformRoutes | src/engine/matching_engine.cpp:48-116 | an order command does to its own symbol what the book does and touches no other book, name or id |
| Engine.RunKeepsEngine | src/engine/matching_engine.cpp:28-116 | every reachable engine has one book per registered id and every book satisfies all book invariants |
| Engine.RunNumbers | src/engine/matching_engine.cpp:48-116 | the event stream of any run is numbered consecutively without gap or repeat, and the engine holds the last number |
| Engine.RunAgrees | src/engine/matching_engine.cpp:48-116 | until a bounded storage refuses something, an engine on it emits the events and reaches the state of the baseline engine |
| EngineLaws.PerformReports | src/engine/matching_engine.cpp:48-116 | a command the engine takes is reported by one event of its own kind, symbol and id and then by exactly the trades its book made, numbered on; any other command changes nothing and is not reported |
| EngineClass.MatchingEngine.RegisterSymbol | src/engine/matching_engine.cpp:28-32 | interns the name and gives a new id an empty book of its own on the engine storage; every other book is untouched |
| EngineClass.MatchingEngine.NewLimit | src/engine/matching_engine.cpp:48-68 | gates first, then the accept event, then one numbered event per trade |
| EngineClass.MatchingEngine.NewMarket | src/engine/matching_engine.cpp:70-86 | the accept event, then one numbered event per trade |
| EngineClass.MatchingEngine.CancelOrder | src/engine/matching_engine.cpp:88-98 | one cancel event exactly when the order rested |
| EngineClass.MatchingEngine.ModifyOrder | src/engine/matching_engine.cpp:100-116 | no event for an unapplied modify; otherwise the modify event, then the trades |
| EngineClass.MatchingEngine.ContainsOrder | src/engine/matching_engine.cpp:127-130 | whether the id rests in that symbol; false for an unknown symbol |
| EngineClass.MatchingEngine.CanStoreLimit | src/engine/matching_engine.cpp:151-155 | the storage gate of that symbol; false for an unknown symbol |
| EngineClass.MatchingEngine.CanApplyModify | src/engine/matching_engine.cpp:157-161 | the modify gate of that symbol; false for an unknown symbol |
| EngineClass.MatchingEngine.FillCount | src/engine/matching_engine.cpp:142-149 | the number of trades an order would make in that symbol; zero for an unknown symbol |
| EngineClass.MatchingEngine.BestPriceOf | src/engine/matching_engine.cpp:132-140 | the best price of one side; none for an unknown symbol |
| EngineClass.MatchingEngine.Apply | src/replay/recovery.cpp:10-26 | one recorded command straight to the engine |
| Gateway.NotionalIsExact | src/engine/risk.cpp:7-24 | the division test accepts exactly positive prices and quantities within both limits: no product is ever over the notional cap |
| EngineLaws.LimitVerdict | src/gateway/order_gateway.cpp:5-21 | accepted exactly when the symbol is known, the id new, price and quantity positive and within both limits, and the order can be stored; each reason is given exactly when its check is the first to fail |
| EngineLaws.MarketVerdict | src/gateway/order_gateway.cpp:23-35 | accepted exactly when the symbol is known, the id new and the quantity positive and within the limit; each reason is given exactly when its check is the first to fail |
| EngineLaws.CancelVerdict | src/gateway/order_gateway.cpp:37-45 | accepted exactly when the order rests, and otherwise which of the two reasons is given |
| EngineLaws.ModifyVerdict | src/gateway/order_gateway.cpp:47-66 | accepted exactly when the order rests and the new quantity is zero or the new values are within limits and storable; each reason is given exactly when its check is the first to fail |
| EngineLaws.SidelessVerdict | src/engine/risk.cpp:26-36 | an order whose byte names no side is refused and changes nothing, with the reason decided by symbol, id and side in that order |
| Gateway.SubmitIsSafe | src/gateway/order_gateway.cpp:5-66 | a rejection changes nothing and carries no event; an acceptance is exactly the unchecked engine step and is never silently ignored |
| Gateway.PreviewIsExact | src/gateway/order_gateway.cpp:68-85 | the preview accepts exactly when submitting does, and then the result is one ack and exactly that many trades |
| Gateway.AcceptedReplay | include/qsl/replay/dispatch.hpp:15-32 | performing only the accepted commands without risk checks repeats the whole gateway run: same engine, same events |
| EngineClass.OrderGateway.NewLimit | src/gateway/order_gateway.cpp:5-21 | checks in the order symbol, duplicate id, side, values, storage, asking the stored books; a byte that names no side is refused and changes nothing |
| EngineClass.OrderGateway.NewMarket | src/gateway/order_gateway.cpp:23-35 | checks in the order symbol, duplicate id, side, values; a byte that names no side is refused and changes nothing |
| EngineClass.OrderGateway.CancelOrder | src/gateway/order_gateway.cpp:37-45 | checks in the order symbol, unknown order |
| EngineClass.OrderGateway.ModifyOrder | src/gateway/order_gateway.cpp:47-66 | checks in the order symbol, unknown order, values, storage; a zero quantity skips the last two |
| EngineClass.OrderGateway.PreviewNewOrder | src/gateway/order_gateway.cpp:68-85 | the preview of the specification, from the gates and dry runs of the stored books, changing nothing |
| EngineClass.OrderGateway.ApplyCommand | include/qsl/replay/dispatch.hpp:15-32 | every recorded command through the gateway |
| Ring.RunKeeps | include/qsl/concurrency/spsc_ring.hpp:33-67 | every interleaving of single loads, slot accesses and stores, for every capacity, keeps indices, slot contents and both stale index views right |
| Ring.WrittenSlotIsFree | include/qsl/concurrency/spsc_ring.hpp:58-67 | the slot being written is none the consumer is still owed, and not the one it is moving from |
| Ring.RunIsFifo | include/qsl/concurrency/spsc_ring.hpp:33-67 | in every interleaving the popped values are a prefix of the pushed ones in order, at most capacity values are held, and the two sides never touch the same slot |
| Ring.StepIsAtomic | include/qsl/concurrency/spsc_ring.hpp:29-41 | every step is silent or exactly one operation of an atomic bounded queue; a push fails only when the queue is full at that moment and then changes nothing |
| Pipeline.RunKeeps | include/qsl/concurrency/pipeline.hpp:184-293 | every interleaving of the three threads keeps the flow invariant |
| Pipeline.NothingIsLost | include/qsl/concurrency/pipeline.hpp:184-293 | at every moment sunk, held, queued, unapplied, queued inbound and unsent commands are the input, in order |
| Pipeline.FinishedIsSequential | include/qsl/concurrency/pipeline.hpp:22-44 | whatever the schedule and the capacities, a finished run has the records, the engine and the counters of the single-threaded run |
| Pipeline.TotalsAreTheRun | include/qsl/concurrency/pipeline.hpp:197-214 | the counters are the number of commands, of accepted and of refused ones, and of the events of the gateway run |
| Pipeline.RecordsAreTheGatewayRun | include/qsl/concurrency/pipeline.hpp:197-214 | the single-threaded reference is the gateway run of the command stream |
| Pipeline.WorkOnlyShrinks | include/qsl/concurrency/pipeline.hpp:184-293 | a waiting step leaves the outstanding work alone; every other step of every thread reduces it |
| Pipeline.SomeThreadCanWork | include/qsl/concurrency/pipeline.hpp:245-293 | for capacities of at least one, until all threads are done some thread can do more than wait |
| Pipeline.WorkIsBounded | include/qsl/concurrency/pipeline.hpp:184-293 | the number of non-waiting steps of any schedule is bounded in advance |
| Pipeline.CanFinish | include/qsl/concurrency/pipeline.hpp:245-293 | from every reachable state some schedule runs the pipeline to completion |
| RingPipeline.StepRefines | include/qsl/concurrency/pipeline.hpp:184-293 | every load, slot access and store of every thread over the real rings is invisible or exactly one step of the pipeline over atomic queues |
| RingPipeline.RunRefines | include/qsl/concurrency/pipeline.hpp:184-293 | every run over the rings is, to an observer, a run over atomic queues |
| RingPipeline.FinishedIsSequential | include/qsl/concurrency/pipeline.hpp:22-44 | at load and store granularity too, a finished pipeline has the records, the engine and the counters of the single-threaded gateway run |
| RingPipeline.NeverStuck | include/qsl/concurrency/pipeline.hpp:245-293 | from wherever any interleaving of loads and stores has led, the pipeline can still run to completion |
| RingProgress.StepShrinks | include/qsl/concurrency/pipeline.hpp:184-293 | at load and store granularity a waiting step leaves the work left alone; every other step of every thread reduces it |
| RingProgress.RingWorkIsBounded | include/qsl/concurrency/pipeline.hpp:184-293 | whatever the schedule and the capacities, at most 54 steps per command and 35 more do anything but wait |
| RingProgress.FairRunsFinish | include/qsl/concurrency/pipeline.hpp:22-44 | every endless schedule of loads, slot accesses and stores that never forgets a thread runs the pipeline to completion, with the single-threaded records, engine and counters |
| RingProgress.RoundRobinIsFair | include/qsl/concurrency/pipeline.hpp:245-293 | taking turns is such a schedule |
| Renumber.HasDuplicateNames | src/replay/shrink.cpp:64-74 | true exactly when two registrations share a name |
| Renumber.CollectReferenced | src/replay/shrink.cpp:76-90 | exactly the symbols the order commands mention |
| Renumber.BuildSymbolRemap | src/replay/shrink.cpp:92-106 | maps exactly the referenced registered symbols, to their rank among them |
| Renumber.Renumber | src/replay/shrink.cpp:236-262 | the loop computes the renumbered stream of the specification |
| Renumber.NewSymbolInjective | src/replay/shrink.cpp:108-112 | distinct referenced symbols, registered or not, keep distinct ids |
| Renumber.RenumberIdempotent | src/replay/shrink.cpp:236-262 | renumbering a renumbered stream changes nothing |
| Renumber.RenumberIsCanonical | include/qsl/replay/shrink.hpp:30-36 | in a renumbered stream no unreferenced symbol is registered, registrations are named S0, S1, ... in order, and order ids count up from zero by first use |
| RenameBook.RenMatch | src/engine/order_book.cpp:117-150 | matching commutes with an injective renaming of order ids |
| RenameBook.RenModify | src/engine/order_book.cpp:748-772 | modify, with its gate, cancel and re-add, commutes with an injective renaming of order ids |
| RenumberIso.IsoCommand | src/replay/shrink.cpp:129-149 | one renamed command keeps the two engines in correspondence and gives the same verdict, reason and renamed events |
| RenumberIso.IsoRegister | src/replay/shrink.cpp:151-157 | a registration adds one empty book on each side, or on the original side only when nobody refers to it |
| RenumberIso.RenumberIsIsomorphic | src/replay/shrink.cpp:236-262 | on every storage and risk configuration the renumbered run has the same results as the original without those of dropped registrations, under injective renamings; unregistered symbols stay unregistered and only empty books are dropped |
| RenumberIso.SameEventStream | src/replay/shrink.cpp:236-262 | both runs emit the same event stream up to names: kinds, sequence numbers, prices and quantities |
| Shrink.RenumberIsSimpler | src/replay/shrink.cpp:217-224 | a renumbering that changes the stream lowers the termination measure |
| Shrink.IrreducibleMeans | src/replay/shrink.cpp:26-62 | what shrinking ends in: dropping any one command, setting any one quantity or price to one, or renumbering loses the failure |
| Shrink.TryRemoveChunks | src/replay/shrink.cpp:159-173 | the result still fails and is shorter if changed; unchanged with chunk size one means no single command can go |
| Shrink.RemoveRanges | src/replay/shrink.cpp:175-191 | the result still fails; unchanged means one-minimal |
| Shrink.SimplifyFields | src/replay/shrink.cpp:195-207 | the result still fails; unchanged means no single field simplification still fails |
| Shrink.RunReductionPass | src/replay/shrink.cpp:226-232 | a pass either leaves an irreducible stream alone or makes the stream strictly simpler |
| Shrink.Shrink | src/replay/shrink.cpp:264-282 | for every deterministic predicate it terminates; the result still fails, is one-minimal, and admits no further failing quantity, price or renumber step |
| EventLog.EncodeRecord | src/replay/event_log.cpp:71-88 | appends exactly one frame, or nothing when the payload is over the cap |
| EventLog.DecodeFrame | src/replay/event_log.cpp:90-119 | the frame of a record decodes to that record wherever it stands |
| EventLog.DecodedIsFrame | src/replay/event_log.cpp:90-119 | whatever decodes is the frame of the record it decodes to |
| EventLog.ScanReencodes | src/replay/event_log.cpp:201-219 | re-encoding the scanned records gives exactly the scanned bytes, and the scan stops only at the end or where decoding fails |
| EventLog.RecoverLog | src/replay/event_log.cpp:201-219 | the scanning loop computes the recovery of the specification |
| EventLog.RecoveryIsLongest | src/replay/event_log.cpp:201-219 | for arbitrary bytes, every list of records whose frames are a prefix of the bytes is recovered |
| EventLog.CutLog | src/replay/event_log.cpp:166-199 | an encoded log cut at any byte recovers exactly the records wholly before the cut; the tail is clean on a boundary, torn inside a header, corrupt once a full header is there |
| EventLog.RepairIsLossless | src/replay/event_log.cpp:229-245 | a repaired log is a prefix of the old one, holds the same records, scans clean, and takes further appends |
| EventLog.RepairOfCut | src/replay/event_log.cpp:229-245 | a log cut at any byte is left alone on a boundary, cut back to the last whole record inside a header, and refused once a full header is there |
| Checksums.OneByteShows | src/replay/event_log.cpp:15-22 | any one byte changed, anywhere, changes the checksum |
| LogDamage.OneByteIsCaught | src/replay/event_log.cpp:90-119 | overwriting any one byte of a written record outside its length field, the stored checksum included, is reported when it is decoded |
| Layouts.RecordLayout | docs/replay_and_recovery.md:22-32 | every field of a record stands at its documented offset, big-endian, and the checksum covers header and payload |
| Checksums.FnvKeepsApart | src/replay/event_log.cpp:15-22 | the same bytes hashed on from different states end in different states: no step of FNV-1a loses anything |
| LogDamage.TornTailIsTheLastRecord | include/qsl/replay/event_log.hpp:82-88 | on a log damaged in place, a torn tail is confined to the final record if and only if the length field of the first damaged record was not changed to reach the end of the log; with that field intact the tail is torn for the last record and corrupt for any other |
| LogDamage.TornTailCanSpanRecords | src/replay/event_log.cpp:164-171 | the promise fails: in any log, damage to two fields of one record that is not the last gives a torn tail, and repair then cuts off that record and every intact one behind it |
| CommandCodec.DecodeEncode | src/replay/command.cpp:29-159 | decoding undoes encoding for every command over the full integer ranges |
| Layouts.PayloadAccepted | src/replay/command.cpp:84-159 | exactly which payloads decode: known tag, enough bytes, enum bytes in their domain |
| Layouts.PayloadLayout | src/replay/command.cpp:84-159 | every field of a decoded command is read at its own offset, big-endian |
| Replay.CommandsOneByOne | src/replay/recovery.cpp:28-42 | each command record that decodes contributes its command in order, and no other record contributes anything |
| Replay.ReplayLog | src/replay/recovery.cpp:28-42 | the replay loop applies exactly the decodable command records, in order |
| Replay.ReplayRepeatsTheSession | src/replay/recovery.cpp:10-42 | log the accepted commands of any gateway run, frame, read back and replay into a fresh engine: same events, same engine |
| Replay.LogExists | src/replay/event_log.cpp:71-88 | any commands within the integer ranges whose symbol names fit a payload have such a log |
| Replay.CrashReplaysAPrefix | src/replay/recovery.cpp:28-42 | after a cut at any byte, recovery and replay reproduce the run of exactly the commands logged whole before it |
| Session.BudgetIsExact | src/gateway/session.cpp:87-98 | the size reserved before an order runs is the saturated size of the response it then gets |
| Session.HandleIsSafe | src/gateway/session.cpp:127-168 | a frame stopped by the limit leaves the engine alone; an answered frame is answered as without a limit and fits: the overflow branch after the engine was changed is dead |
| Session.NeverOverLimit | src/gateway/session.cpp:192-224 | a session within its limit stays within it, for every input |
| Session.StopsBetweenFrames | src/gateway/session.cpp:192-224 | when the limit stops a session, engine and output are those of an unlimited session given exactly the frames consumed so far |
| Session.ChunkingDoesNotMatter | src/gateway/session.cpp:192-224 | any chunking of a byte stream gives the output, engine and logout flag of feeding it whole |
| Session.DrainedWaits | src/gateway/session.cpp:192-224 | a live session never buffers a complete frame, so always less than one header and one largest body |
| Session.StopsExactly | src/gateway/session.cpp:87-168 | a limit stops an order exactly when its own response would not fit, a cancel when an ack would not, a heartbeat when its echo would not; a malformed frame closes the session |
| Layouts.BigEndian | docs/binary_protocol.md:9-9 | multi-byte numbers are big-endian: the first byte counts most |
| Layouts.FrontFrameMeans | docs/binary_protocol.md:34-48 | a buffer is refused exactly on an unknown type, another version or a body over 4096 bytes; otherwise it waits for, or starts with, a frame of the declared size |
| Layouts.OrderLayout | docs/binary_protocol.md:52-55 | exactly which frames are new orders, and the offset of every field |
| Layouts.OtherLayouts | docs/binary_protocol.md:52-55 | exactly which frames are cancels and heartbeats, and the offset of every field |
| Layouts.AckLayout | src/protocol/codec.cpp:163-169 | the offset of every field of an ack |
| Layouts.RejectLayout | src/protocol/codec.cpp:171-177 | the offset of every field of a reject, and the code of every reason |
| Layouts.FillLayout | src/protocol/codec.cpp:179-188 | the offset of every field of a fill |
| Layouts.HeartbeatLayout | src/protocol/codec.cpp:157-161 | the offset of the token of a heartbeat ack |
| Wire.ResponseSize | src/gateway/session.cpp:36-47 | a reject takes 25 bytes; an acceptance takes 32 and 52 per trade |
| WireReplies.OrderIsUnderstood | src/protocol/codec.cpp:14-92 | the session reframes and decodes exactly the new order a client wrote, whatever bytes follow |
| WireReplies.CancelIsUnderstood | src/protocol/codec.cpp:29-113 | the session reframes and decodes exactly the cancel a client wrote |
| WireReplies.HeartbeatIsEchoed | src/protocol/codec.cpp:151-161 | a heartbeat token is read and comes back readable |
| WireReplies.ResponseSaysWhatHappened | src/gateway/session.cpp:60-85 | a client that reframes and decodes the response learns exactly the verdict, the reason and every trade in order |
| SessionClass.ResultWireSize | src/gateway/session.cpp:36-47 | the loop adds up the size of the specification |
| SessionClass.EmitResult | src/gateway/session.cpp:60-85 | writes the whole response or nothing; no single append is refused once the whole is known to fit |
| SessionClass.Session.ProcessFrame | src/gateway/session.cpp:176-190 | one frame as the specification handles it |
| SessionClass.Session.OnBytes | src/gateway/session.cpp:192-224 | the reframing loop does to engine, buffer, flag and output what the specification does |
| FieldWidths.PerformFits | include/qsl/core/types.hpp:7-16 | orders, prices and quantities that fit the integer fields of the program keep fitting them, in every book and every event, through every command |
| ClientSession.ClientLearns | src/gateway/session.cpp:192-224 | under any output limit a session given any written requests answers the first k completely and the others not at all: the engine has done exactly those k, and the client decodes exactly their replies |
| ClientSession.Converse | src/gateway/session.cpp:192-224 | the session object, fed what a client wrote in any chunks, leaves the gateway run of those requests, and its output decodes to every verdict, reason and trade in order |
| Feed.UntouchedTop | src/engine/matching_engine.cpp:48-116 | a book whose symbol no event mentions has not changed its top |
| Feed.TopIsBest | src/feed/publisher.cpp:33-33 | the top of a symbol is its highest bid and its lowest ask, and absent on an empty side only |
| Feed.OnlyNewsIsSent | src/feed/publisher.cpp:32-43 | a top is sent exactly for the listed symbols whose top is not the one last sent |
| Feed.SymbolsInOrder | src/feed/publisher.cpp:20-31 | touched symbols come in the order in which the events first mention them |
| Feed.MarketDataPublisher.Publish | src/feed/publisher.cpp:18-44 | appends exactly one message per fill in event order, then, in order of first appearance, one top-of-book message for each touched symbol whose top is not the one last sent, numbered on consecutively |
| Feed.RunAndPublish | src/feed/publisher.cpp:18-44 | after any run whose events are all published, every subscriber that keeps the last top of book per symbol agrees with the engine on every symbol, the trades it received are those of the run in order, and messages are numbered from one without gap |
| Feed.SequenceTracker.Observe | include/qsl/feed/sequence_tracker.hpp:18-30 | reports the forward gap and ignores repeats and late arrivals |
| Feed.TrackAll | include/qsl/feed/sequence_tracker.hpp:18-30 | on any in-order lossy subsequence the reported gaps add up to the messages lost between the first and the last received |
| FixText.ReadRendered | src/protocol/fix.cpp:46-54 | a rendered number in range reads back whole, signed types included |
| FixText.Tokenize | src/protocol/fix.cpp:67-96 | the loop computes the fields of the specification, or nothing for a malformed message |
| FixText.TokensOfTexts | src/protocol/fix.cpp:67-96 | any distinct fields written one after another tokenize back to themselves with their positions |
| FixCodec.Frame | src/protocol/fix.cpp:258-284 | prepends BeginString and BodyLength and appends the mod-256 CheckSum as three digits |
| FixDamage.SumJoins | src/protocol/fix.cpp:258-284 | the CheckSum sum is additive: every character adds its own code, wherever it stands |
| FixDamage.DamageIsCaught | src/protocol/fix.cpp:100-153 | if a message parses, replacing any one byte in front of its CheckSum field, a delimiter included, makes it unparsable |
| FixDamage.ParsedMeans | src/protocol/fix.cpp:100-153 | what parses begins with FIX.4.2, a BodyLength that is the number of bytes up to the CheckSum field, and a message type, and ends in three digits that are the byte sum |
| FixCodec.FramedParses | src/protocol/fix.cpp:100-153 | a framed message passes the shape, BodyLength and CheckSum checks and parses to its own fields |
| FixCodec.NewOrderRoundTrip | src/protocol/fix.cpp:288-356 | the decoder recovers exactly the encoded new order, and the peeks its sequence number and type, over the full integer ranges |
| FixCodec.CancelRoundTrip | src/protocol/fix.cpp:304-392 | the decoder recovers exactly the encoded cancel request, and the peeks its sequence number and type, over the full integer ranges |
| FixCodec.OrderMeans | src/protocol/fix.cpp:338-356 | a text decodes to a new order if and only if its envelope is sound, its type is D, and every tag holds what the standard says: numbers in range, side, order type and time in force |
| FixCodec.CancelMeans | src/protocol/fix.cpp:358-392 | a text decodes to a cancel if and only if its envelope is sound, its type is F, and its tags hold numbers in range |

## Left out

- Sockets, epoll and thread-per-connection servers, file opening, fsync and durability modes: operating-system calls.
- Weak-memory effects below single loads and stores, yields, spin counters and scheduling perturbation.
- PMR resources, hash tables, raw storage and pointer arithmetic: pools are slot indices, hash maps are maps, pointers are options of indices; the pooled storage is the baseline on another allocator.
- Enum values outside OrderType and TimeInForce inside the engine: the decoders refuse such bytes and the gateway refuses an invalid side before any book sees it.
- Wrap-around of 32-bit locator positions and symbol ids and of 64-bit sequence numbers and level totals: the model's counters are unbounded.
- Snapshots of the engine as a value: they list the answers of the modelled queries, and the pipeline compares the engines themselves.
- Checksum strength: beyond one changed byte, which FNV-1a always catches, nothing is claimed about collisions.
- Combined damage and truncation of a log: each is classified exactly on its own.
- Binary encoding of market data messages: fixed-width field copies.
- Random flow generators, fixture export, command-line tools and benchmarks.
