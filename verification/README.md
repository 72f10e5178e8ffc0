# Verification of the matchx exchange core

This project models the hybrid order book, the matching engine and the
write-ahead journal of matchx in Dafny, and proves what they promise.

## What is modelled

**The order book.** `SideBook` is one side: dense levels inside a price window,
sparse levels outside it, an occupancy bitset, a Fenwick tree over the dense
ticks and a sparse volume index. The source keeps these as pairs of fields, one
of each pair for bids and one for asks; here each side is an object of its own,
with the same fields. `OrderBook` adds the intrusive lists in the free-list
`Arena` and the id lookup. All of it refines one value, `BookSpec.Book`: a map
from side and price to a FIFO queue of orders, with the cached best prices and
the depth that the indexes hold. Every method says which function of the old
value the new one is.

**The engine.** `EngineSpec` says what a command does to a book, an unbounded
event log, the pending stops and the last trade price; `MatchingEngine` does it
in place, with the source's loops, and each of its methods is proved equal to
the specification. The log comes with notes for the flows that no event
reports (both halves of a self-trade decrement, the rest of a modified order,
an order whose insertion was refused, a stop that fired) and for the level of
each trade, so that every quantity is accounted for.

**The journal.** Byte codec, record framing, recovery, the two readers and the
segmented writer, with the checksum as a parameter: no result depends on how
strong it is. `AsyncJournal` is the producer, worker and closer as interleaved
atomic steps over queue, batch, file and flags, with a write that may stop
after any byte.

How the files build on each other: `Types`, `Bits`, `Bitset`, `Fenwick`, `Depth`
(leaf structures); `BookSpec`, `BookFacts`, `BookLedger`, `BestPrices`,
`BookRuns` (the abstract book); `SideBook`, `Arena`, `Chains`, `Storage`,
`OrderBook` (the concrete book); `EngineSpec`, `EngineFacts`, `EngineRuns`,
`Rounds`, `Entries`, `Cascades`, `Entering` (induction over the orders that enter in
a run), `Steadiness`, `Routes`, `Greedy`, `Orderly`, `ExactBests`, `Priority`, `Slicing`,
`Outcomes`, `Crossing`, `SelfTrading`, `Terms`, `Drifting`, `Reports`, `Tickers`, `Budget`, `Witnesses`
(the abstract engine); `Engine` (the concrete engine); `Bytes`, `Codec`, `Records`,
`Logs`, `Recovery`, `Readers`, `Writer`, `AsyncJournal`, `Durability`, `Closing`,
`Backpressure` (the journal).

What a match meets is a list, the taker's *route* (`Routes.Route`): the queue at the
cached best, then the queue at the best that a refresh would find without it, and so
on while the taker's price accepts. The matching results hold on every well-formed
book in terms of it; where that faces its window and its cached bests are exact, it
is price-time priority. `Terms` then says what commands mean, read off their own
fields, the log and the book: how far an order reaches, what it takes, what of it
rests or is cancelled, and how a modified order or a fired stop comes back.

## What the code does that its comments do not say

Each of the following promises fails, and each is stated exactly, by a condition
that holds if and only if the promise does. The named runs, from a new engine or
on a given file, break it.

- A fill lowers the level total but not the depth index, and the removal that
  follows subtracts only what remains, which is nothing. So the index drifts
  upward by exactly what was traded (`Drifting.IndexDriftsByFills`), and a
  fill-or-kill order can be filled in part (`Outcomes.FillOrKillIsAllOrNothing`;
  run: `Witnesses.FillOrKillCanFail`).
- Refreshing a best price looks at the dense window first, which is wrong when a
  level lies beyond the window's far end (`BestPrices.RefreshIsExact`; run:
  `Witnesses.BestCanGoStale`). The engine never recenters. The bests are exact
  throughout a run as long as every removal and match meets that condition
  (`ExactBests.BestsAreExactly`), and so as long as nothing comes to rest there
  (`OrderlyBooks.BestsAreExact`).
- An order that comes to rest can cross the book, for two reasons and no other
  (`Crossing.EnterCrosses`): `CancelNewest` met in the middle of a sweep stops
  the match and lets the rest of the taker rest (run:
  `Witnesses.CancelNewestCanCross`), and in every mode a stale best hides a level
  that the order could have traded with (run: `Witnesses.StaleBestCanCross`).
- The 64-slot event buffer is enough for 31 slices of resting orders and no more
  (`Budget.NewOrderFits`), one fewer for a modification; a single iceberg can
  exceed it (run: `Witnesses.OneIcebergCanOverflow`).
- A post-only order is accepted without the quantity and duplicate checks. Outside
  the window, an order with nothing left whose price is no longer indexed cannot
  be taken off the index (`Steadiness.IndexGivesUpExactly`), and the source
  panics (run: `Witnesses.IndexCanMiss`). The specification and all that is
  proved of it goes on; the concrete engine follows it as long as no such order
  is met.
- A modification drops the order's self-trade group, so two orders that came under
  one group can trade with each other (`SelfTrading.SelfTradesExactly`; run:
  `Witnesses.ModifiedOrdersCanSelfTrade`). They cannot where no order with a group
  is modified (`SelfTrading.NoRunSelfTrades`).
- An order that comes to rest is reported with its own quantity as the level's
  (`Tickers.UpdatesAreExact`; run: `Witnesses.UpdatesCanBePartial`).
- Closing the journal while an append is past its checks can lose that one
  record although it was accepted (`Durability.CloseDrains`; run:
  `Durability.CloseCanLoseAnAppend`).
- The asynchronous journal appends behind whatever its file holds. Behind a torn
  record that nobody cut off, records can be reported durable that recovery does
  not find (`Durability.CrashKeepsDurable`; run: `Durability.TornFileLosesDurable`).

Two more are about bytes alone, with bytes that show them:

- Streaming passes over one to three stray bytes at the end of a segment, which
  reading everything refuses (`Readers.StreamAgreesExactly`; bytes:
  `Readers.StrayBytesDiffer`).
- Recovery cuts each segment of a directory by itself. Records behind a segment
  that was cut in the middle of the directory survive without those before them
  (`Recovery.CutDirRecovers`; bytes: `Recovery.GapCanOpen`).

And two are choices that the model keeps: equal-priced stops fire newest first
(`Cascades.PositionSplits`), and an insertion that is refused is ignored and reported
as a book update all the same.

## Model

| member | source | states |
|---|---|---|
| `Slicing.SliceEnds` | crates/matchx-types/src/lib.rs:138-147 | a fill of an iceberg stays inside its current slice until it takes all of it; taking all of it ends the order or ends exactly where the next slice begins |
| `Slicing.SlicesAreCounted` | crates/matchx-types/src/lib.rs:138-147 | an order in front of the list is dealt with in the number of slices that its filled, visible and given quantities say, in closed form, and what it does not cover goes on to the next order |
| `Slicing.OneSliceEach` | crates/matchx-types/src/lib.rs:138-147 | without icebergs every crossable order is dealt with at most once |
| `Arenas.Arena.constructor` | crates/matchx-arena/src/lib.rs:33-52 | a new arena has every slot free, threaded in order |
| `Arenas.Arena.Alloc` | crates/matchx-arena/src/lib.rs:56-73 | hands out the first slot of the free list and writes the order there; refuses, changing nothing, exactly when no slot is free |
| `Arenas.Arena.Free` | crates/matchx-arena/src/lib.rs:77-97 | puts a live slot at the front of the free list and leaves the slots' contents; the free list stays acyclic and threaded |
| `Arenas.Arena.Put` | crates/matchx-arena/src/lib.rs:120-133 | writing a live slot changes that slot only |
| `Arenas.AllFree` | crates/matchx-arena/src/lib.rs:33-97 | distinct slots that leave one out are fewer than the capacity, so the live count never underflows on a free |
| `Bits.AndNegIsLowBit` | crates/matchx-book/src/lib.rs:28-60 | `i & i.wrapping_neg()` on machine words isolates the lowest set bit |
| `Fenwick.NextCover` | crates/matchx-book/src/lib.rs:28-50 | adding the low bit leads from a node that covers a point to the next node that covers it, skipping none |
| `Fenwick.FenwickTree.Add` | crates/matchx-book/src/lib.rs:28-34 | adds to one point value and to no other; the loop stays in bounds and ends |
| `Fenwick.FenwickTree.Sub` | crates/matchx-book/src/lib.rs:36-49 | subtracts from one point value no larger amount than it holds; no node saturates on the way |
| `Fenwick.FenwickTree.PrefixSum` | crates/matchx-book/src/lib.rs:52-60 | the plain sum of the point values up to and including an index |
| `Fenwick.FenwickTree.SuffixSumGe` | crates/matchx-book/src/lib.rs:68-74 | the plain sum of the point values from an index on |
| `Fenwick.ShiftedRepresents` | crates/matchx-book/src/lib.rs:28-50 | changing every node that covers a point by a delta is changing that point by it |
| `SparseIndex.PartitionPoint` | crates/matchx-book/src/lib.rs:92-142 | the rank of the first price not below a bound, on any ascending list |
| `SparseIndex.SparseVolumeIndex.Add` | crates/matchx-book/src/lib.rs:92-104 | adds quantity at a price, known or new, keeping prices, quantities and tree in step |
| `SparseIndex.SparseVolumeIndex.Sub` | crates/matchx-book/src/lib.rs:106-120 | takes quantity off a price and drops the price when nothing is left |
| `SparseIndex.SparseVolumeIndex.SumAtOrBelow` | crates/matchx-book/src/lib.rs:133-140 | the sum of the quantities at prices not above a bound |
| `SparseIndex.SparseVolumeIndex.SumAtOrAbove` | crates/matchx-book/src/lib.rs:142-155 | the sum of the quantities at prices not below a bound |
| `SparseIndex.RankSum` | crates/matchx-book/src/lib.rs:133-155 | summing quantities by rank is summing them by price |
| `Bitset.FindHighest` | crates/matchx-book/src/lib.rs:532-542 | the highest set bit over all words, none exactly when all are zero |
| `Bitset.FindLowest` | crates/matchx-book/src/lib.rs:544-554 | the lowest set bit over all words, none exactly when all are zero |
| `Bitset.WithBitSets` | crates/matchx-book/src/lib.rs:232-240 | setting a bit sets that bit and no other |
| `Bitset.WithoutBitClears` | crates/matchx-book/src/lib.rs:242-250 | clearing a bit clears that bit and no other |
| `SideBooks.SideBook.Push` | crates/matchx-book/src/lib.rs:289-322 | one side after an insertion: dense or sparse level, bit, depth index and best price all stand for the new records |
| `SideBooks.SideBook.Pop` | crates/matchx-book/src/lib.rs:448-475 | one side after a removal or reduction: an emptied level is pruned, its bit cleared, the best refreshed, and the index lowered |
| `SideBooks.SideBook.Overwrite` | crates/matchx-engine/src/lib.rs:529-536 | the engine's write to a level total leaves index, bits and best as they were |
| `SideBooks.SideBook.Refresh` | crates/matchx-book/src/lib.rs:515-526 | dense levels are looked at first, sparse ones only when no dense level is left |
| `SideBooks.SideBook.Rebase` | crates/matchx-book/src/lib.rs:578-704 | moving the window keeps every level record and the best price, and makes bits and both indexes exact for the new window |
| `SideBooks.SideBook.AvailableAtOrBelow` | crates/matchx-book/src/lib.rs:720-745 | the indexed depth at prices not above a bound, below, inside and above the window |
| `SideBooks.SideBook.AvailableAtOrAbove` | crates/matchx-book/src/lib.rs:747-769 | the indexed depth at prices not below a bound, below, inside and above the window |
| `Chains.AppendLinks` | crates/matchx-book/src/lib.rs:289-303 | linking a slot behind the tail keeps the chain doubly linked, spelling one order more |
| `Chains.UnhookLinks` | crates/matchx-book/src/lib.rs:455-467 | unhooking a slot keeps the chain doubly linked, spelling the queue without that order |
| `Storage.LiveSlotsAreLinked` | crates/matchx-book/src/lib.rs:253-324 | the arena slots in use are exactly the slots linked into some level |
| `Storage.ChainsApart` | crates/matchx-book/src/lib.rs:253-324 | the lists of different levels share no slot |
| `Storage.InsertStoresBook` | crates/matchx-book/src/lib.rs:285-303 | after an insertion arena, links and id lookup store the book with the order at the end of its queue |
| `Storage.RemoveStoresBook` | crates/matchx-book/src/lib.rs:443-476 | after a removal arena, links and id lookup store the book without the order, every other queue position kept |
| `OrderBooks.OrderBook.constructor` | crates/matchx-book/src/lib.rs:183-204 | a new book stands for the empty book |
| `OrderBooks.OrderBook.InsertOrder` | crates/matchx-book/src/lib.rs:253-324 | the concrete book becomes the abstract insertion; none is returned exactly for a duplicate id or a full arena |
| `OrderBooks.OrderBook.RemoveOrder` | crates/matchx-book/src/lib.rs:443-480 | the concrete book becomes the abstract removal, and the order's side and price are returned |
| `OrderBooks.OrderBook.ReduceOrderQty` | crates/matchx-book/src/lib.rs:424-437 | order, level total and depth index all lose the same quantity, and nothing else changes |
| `OrderBooks.OrderBook.FillMaker` | crates/matchx-engine/src/lib.rs:525-536 | order and level total lose the filled quantity, the depth index does not |
| `OrderBooks.OrderBook.ForceRecenter` | crates/matchx-book/src/lib.rs:578-704 | the concrete book becomes the abstract book with the window at any new base: no queue, id or best price moves |
| `OrderBooks.OrderBook.MaybeRecenter` | crates/matchx-book/src/lib.rs:558-573 | recenters exactly when a best price drifted past 70% of the window |
| `OrderBooks.OrderBook.Lookup` | crates/matchx-book/src/lib.rs:390-392 | finds the slot of exactly the resting ids |
| `OrderBooks.OrderBook.GetLevelQty` | crates/matchx-book/src/lib.rs:379-388 | the total remaining at a level, zero where there is none |
| `OrderBooks.OrderBook.GetLevelHead` | crates/matchx-book/src/lib.rs:336-360 | the slot of the first order of a level |
| `OrderBooks.OrderBook.AskAvailableAtOrBelow` | crates/matchx-book/src/lib.rs:720-745 | the indexed ask depth not above a price |
| `OrderBooks.OrderBook.BidAvailableAtOrAbove` | crates/matchx-book/src/lib.rs:747-769 | the indexed bid depth not below a price |
| `BookFacts.InsertKeepsShape` | crates/matchx-book/src/lib.rs:253-324 | insertion keeps the book well formed: no empty level, every order filed under its side, price and id, live cached bests |
| `BookFacts.RemoveKeepsShape` | crates/matchx-book/src/lib.rs:443-480 | removal keeps the book well formed |
| `BookFacts.FillKeepsShape` | crates/matchx-engine/src/lib.rs:525-536 | a fill keeps the book well formed |
| `BookFacts.ReduceKeepsShape` | crates/matchx-book/src/lib.rs:424-437 | a reduction keeps the book well formed |
| `BookFacts.RecenterKeepsShape` | crates/matchx-book/src/lib.rs:578-704 | recentering keeps the book well formed |
| `BookRuns.DepthQueriesAreSums` | crates/matchx-book/src/lib.rs:720-769 | over every run of book insertions, removals, reductions and recenterings that does not panic, quantities of zero included, the depth queries are the plain sums of the level totals on the right side of the price |
| `BookRuns.RunKeepsTidy` | crates/matchx-book/src/lib.rs:253-480 | every such run keeps the book well formed and the index equal to the level totals |
| `BookRuns.IndexUpdatesSucceed` | crates/matchx-book/src/lib.rs:106-120 | in every well-formed book, whatever has drifted at a level, the index gives up any part of an order there if and only if the order has something left, rests in the window, or finds its price indexed |
| `Steadiness.ZeroQuantitiesBreakTheIndex` | crates/matchx-book/src/lib.rs:106-120 | in any book, two orders of quantity zero at a sparse price that holds nothing else: the first removal takes the index entry that the second needs |
| `Witnesses.IndexCanMiss` | crates/matchx-engine/src/lib.rs:191-226 | in every mode: after two post-only offers of quantity zero outside the window and the cancellation of the first, the second cannot be taken off the index |
| `BestPrices.RefreshIsExact` | crates/matchx-book/src/lib.rs:509-530 | a refresh finds the true best exactly when no dense level is left or nothing lies beyond the far end of the window |
| `BestPrices.InsertKeepsBest` | crates/matchx-book/src/lib.rs:311-322 | insertion keeps exact bests exact, and the facing condition if the price faces the window |
| `BestPrices.RemoveKeepsBest` | crates/matchx-book/src/lib.rs:475-526 | under the facing condition removal keeps the cached bests the true ones |
| `BestPrices.RemovalIsExact` | crates/matchx-book/src/lib.rs:475-526 | from exact bests a removal leaves exact bests if and only if the level does not empty, was not the best, or nothing dense is left on that side, or nothing lies beyond the far end there |
| `BestPrices.RecenterEndsFacing` | crates/matchx-book/src/lib.rs:558-573 | on any uncrossed book with exact bests and a window of at least one tick, the drift check always ends in the facing condition, with queues, ids and bests unchanged |
| `BestPrices.RecenterCentres` | crates/matchx-book/src/lib.rs:558-573 | the window moves only when the best bid is at least 70% of its width above its base, or the best ask that far below its end; it is then centred on the best bid, or on the best ask if there is no bid, and holds that price |
| `EngineSpec.RoundProgresses` | crates/matchx-engine/src/lib.rs:415-569 | every turn of the match loop that goes on takes an order off the book or quantity off the taker |
| `EngineRuns.MatchFacts` | crates/matchx-engine/src/lib.rs:407-570 | matching keeps the engine sound and consumes of the taker exactly what leaves its remainder; no other account changes |
| `EngineRuns.EnterFacts` | crates/matchx-engine/src/lib.rs:179-376 | an order's account is settled when it has entered: accepted is filled, cancelled, decremented, dropped, or rests |
| `EngineRuns.RunFacts` | crates/matchx-engine/src/lib.rs:122-170 | every run of any commands keeps the engine sound: well-formed book, index drifted by exactly what was traded, events numbered from one, and no account changed |
| `EngineRuns.Conservation` | crates/matchx-engine/src/lib.rs:122-170 | for every run and order id, accepted equals filled plus cancelled plus decremented plus withdrawn plus fired plus dropped plus what rests plus what waits |
| `Drifting.IndexDriftsByFills` | crates/matchx-engine/src/lib.rs:525-567 | after every run, at every level of either side, the depth index is what rests there plus everything the log says was filled there |
| `Steadiness.IndexGivesUpExactly` | crates/matchx-book/src/lib.rs:408-422 | the same if-and-only-if for every sound engine state, trades and all |
| `Steadiness.IndexHoldsOrders` | crates/matchx-book/src/lib.rs:408-422 | an order that meets it can be taken off the index in part or, after any fill of it, in full |
| `Steadiness.RunSteady` | crates/matchx-engine/src/lib.rs:122-170 | in every run whose post-only orders, the one kind accepted with any quantity, bring a quantity or a price of a given range, each resting order has something left or rests in that range |
| `Steadiness.RunsSucceed` | crates/matchx-engine/src/lib.rs:122-170 | every run whose post-only orders bring a quantity or a price in the window never misses the index, to its end |
| `Steadiness.RestingOrdersAreLive` | crates/matchx-engine/src/lib.rs:122-170 | where post-only orders bring a quantity, every resting order has something left, and no more than its quantity |
| `Drifting.RejectionIsJustified` | crates/matchx-engine/src/lib.rs:300-306 | a rejection for want of liquidity is never wrong: the crossable orders really fall short of the quantity |
| `Rounds.MatchWrites` | crates/matchx-engine/src/lib.rs:415-569 | the match loop writes at most two events for each maker it deals with, and only its own kinds of events |
| `Rounds.RoundsBound` | crates/matchx-engine/src/lib.rs:415-569 | the makers dealt with are bounded by what the taker loses and the orders that leave the opposing side |
| `Rounds.MatchCounts` | crates/matchx-engine/src/lib.rs:415-569 | the events are two for each maker dealt with, one fewer when the last maker was decremented |
| `Slicing.RoundsAreSlices` | crates/matchx-engine/src/lib.rs:415-569 | in every mode and on every well-formed book the makers dealt with are exactly the slices taken from the front of the route |
| `Entries.NoSelfTrade` | crates/matchx-engine/src/lib.rs:452-521 | in all four modes a fill is with a maker that rested in the book and was not stored under the taker's group |
| `SelfTrading.EnterTakesExactly` | crates/matchx-engine/src/lib.rs:452-521 | the fills of an order that enters pair no two ids of one group if and only if the order takes nothing on its route from an order of its id's group, whatever both are stored under |
| `SelfTrading.SelfTradesExactly` | crates/matchx-engine/src/lib.rs:452-521 | for every run of any commands, in every mode and for any grouping of the ids: no fill is between two ids of one group if and only if no order that enters takes anything on its route from an order of its group |
| `SelfTrading.NoRunSelfTrades` | crates/matchx-engine/src/lib.rs:452-521 | which a caller can ensure: it is so if each id comes under one group and no resting order that came under a group is modified |
| `Witnesses.ModifiedOrdersCanSelfTrade` | crates/matchx-engine/src/lib.rs:702-714 | in every mode: an offer under group 7 is modified, and a buy under group 7 then trades with it |
| `Budget.NewOrderFits` | crates/matchx-engine/src/lib.rs:36-42 | where no pending stop triggers at the last price it pays, a new order fits the 64-event buffer if and only if it is turned away, is post-only, or takes at most 31 slices from the front of its route |
| `Budget.FiresNoStopExactly` | crates/matchx-engine/src/lib.rs:576-642 | a new order fires no stop if and only if none triggers at the last price it pays, which is read off its route before the call |
| `Budget.ModifyFits` | crates/matchx-engine/src/lib.rs:682-714 | where no pending stop triggers at the last price its replacement pays, a modification fits the buffer if and only if the replacement takes at most 30 slices of its route |
| `Budget.StopOrderFits` | crates/matchx-engine/src/lib.rs:229-274 | a stop that does not trigger at once writes one event |
| `Budget.MatchPaid` | crates/matchx-engine/src/lib.rs:523-567 | the last trade price after a match is the last price paid when the orders on the route are consumed from the front |
| `Budget.DrainSpends` | crates/matchx-engine/src/lib.rs:576-642 | a cascade writes no more than the stops it fires were worth: two events for each unit and three for each stop, against two for each order that leaves the book |
| `Budget.ProcessSpends` | crates/matchx-engine/src/lib.rs:122-170 | one command with its whole cascade adds at most twice what it brings and four events, two for each order that leaves the book, and what the stops it fires were worth |
| `Budget.RunsAreBounded` | crates/matchx-engine/src/lib.rs:122-170 | however stops cascade, a whole run writes at most two events for each unit of quantity its commands bring and four for each command |
| `Cascades.PositionSplits` | crates/matchx-engine/src/lib.rs:263-272 | a new stop goes behind the strictly nearer ones and in front of all others, equals included |
| `Cascades.FireQuiets` | crates/matchx-engine/src/lib.rs:585-635 | firing takes a prefix of the queue, all of it triggered, and leaves nothing that triggers |
| `Cascades.FiresDue` | crates/matchx-engine/src/lib.rs:585-607 | from a sorted queue exactly the stops that are due at the price fire, in the order of the queue |
| `Cascades.CascadeFiresDue` | crates/matchx-engine/src/lib.rs:576-642 | a cascade fires first the buy stops that are due at the last trade price, nearest first, then the sell stops that are, and only then what the price that those left makes due |
| `Cascades.StopsSettle` | crates/matchx-engine/src/lib.rs:576-642 | after every run both stop queues are sorted, every buy stop waits above the last trade price and every sell stop below, and each accepted stop has fired once or still waits |
| `Engines.DrainStep` | crates/matchx-engine/src/lib.rs:577-641 | every repeat of the outer loop has consumed at least one stop |
| `OrderlyBooks.MatchOrderly` | crates/matchx-engine/src/lib.rs:415-430 | matching keeps the book facing with exact bests, and a taker with something left no longer crosses it unless stopped at its own group |
| `OrderlyBooks.EnterExact` | crates/matchx-engine/src/lib.rs:179-376 | whatever enters a book that faces its window with exact bests leaves the bests exact, at any price |
| `OrderlyBooks.BestsAreExact` | crates/matchx-engine/src/lib.rs:122-170 | in every mode, throughout and after every run in which nothing comes to rest beyond the window's far end, stop cascades included, the cached bests are the highest bid and the lowest ask, whether the book is crossed or not |
| `ExactBests.EnterIsExact` | crates/matchx-engine/src/lib.rs:179-376 | in every mode and at any price: what enters a well-formed book with exact bests leaves them exact if and only if no price on its route empties, or without those that do nothing dense is left or nothing lies beyond the far end |
| `ExactBests.BestsAreExactly` | crates/matchx-engine/src/lib.rs:122-170 | for every run of any commands: the cached bests are exact after every order that entered or left the book if and only if every match, cancellation and withdrawal meets its condition |
| `OrderlyBooks.FacingPricesSuffice` | crates/matchx-engine/src/lib.rs:122-170 | a run is such a run if every order that may rest faces the window, which a caller can check |
| `Crossing.EnterCrosses` | crates/matchx-engine/src/lib.rs:348-376 | on every well-formed uncrossed book, in every mode and for every order: the book is crossed afterwards if and only if the order comes to rest, with room, in front of an order of its own group that stopped it or of a level that a stale best hides from it |
| `Crossing.UncrossedExactly` | crates/matchx-engine/src/lib.rs:122-170 | for every run of any commands: the book is uncrossed throughout if and only if no order that enters meets that condition |
| `Crossing.PostOnlyCrosses` | crates/matchx-engine/src/lib.rs:191-226 | a post-only order crosses an uncrossed book if and only if it is booked although an opposing level is acceptable to its price |
| `Crossing.NeverCrossed` | crates/matchx-engine/src/lib.rs:122-170 | throughout and after every run that keeps the book facing and lets nothing rest in front of its own group, the highest bid is below the lowest ask |
| `Crossing.ClearOrdersSuffice` | crates/matchx-engine/src/lib.rs:122-170 | a run is such a run if every order that may rest faces the window and, under CancelNewest, one that matches first brings no group |
| `Greedy.MatchIsGreedy` | crates/matchx-engine/src/lib.rs:407-570 | in every mode and on every well-formed book matching is greedy: the leftover, the decision to cancel, the orders left and the total of every maker are those of consuming the orders on the route from the front, however iceberg slices split the fills; nothing moves elsewhere |
| `Priority.RouteIsSorted` | crates/matchx-book/src/lib.rs:515-526 | on a facing book with exact bests the route is the list of all crossable orders, sorted by price and then by time, and nothing is hidden from it |
| `Priority.MatchIsPriceTime` | crates/matchx-engine/src/lib.rs:407-570 | so there matching is price-time priority: leftover, remaining crossable orders, cancellation and per-maker totals are those of consuming the sorted list from the front |
| `Greedy.SliceThenRest` | crates/matchx-types/src/lib.rs:138-147 | taking a first slice of a maker and then the rest is taking it all at once |
| `Outcomes.AvailableIsHeldPlusDrift` | crates/matchx-engine/src/lib.rs:645-650 | the depth query overstates the crossable quantity by exactly what was traded at those prices |
| `Outcomes.FillOrKillOutcome` | crates/matchx-engine/src/lib.rs:300-373 | in every sound state, mode and group, the four ends of a fill-or-kill order: rejected for liquidity, rejected for its own group, filled to the end, or filled in part and cancelled |
| `Outcomes.FillOrKillIsAllOrNothing` | crates/matchx-engine/src/lib.rs:300-373 | a fill-or-kill order is all or nothing if and only if it is rejected or the orders it can get on its route cover it; on a facing book with exact bests, without drift and without a group, it always is |
| `Witnesses.FillOrKillCanFail` | crates/matchx-engine/src/lib.rs:300-373 | in every mode: after ten traded and one offered at a price, a fill-or-kill order for five is filled with one and cancelled with four |
| `Crossing.StoppingShortCrosses` | crates/matchx-engine/src/lib.rs:458-461 | on a facing book with exact bests, after an order that may rest at any price, the book is crossed if and only if the mode is CancelNewest, the order has quantity left at the first order of its own group, and there is room for it |
| `Witnesses.CancelNewestCanCross` | crates/matchx-engine/src/lib.rs:458-461 | a run of two offers, one of nobody's and one of the buyer's group behind it, after which a buy of that group crosses the book |
| `Witnesses.BestCanGoStale` | crates/matchx-book/src/lib.rs:515-526 | a run of two offers below the base and one in the window: cancelling the lowest leaves the one in the window as the cached best although a lower one rests |
| `Witnesses.StaleBestCanCross` | crates/matchx-engine/src/lib.rs:348-376 | in every mode: after that run a buy at 100 rests above the offer at 95 that the stale best hides |
| `Witnesses.OneIcebergCanOverflow` | crates/matchx-engine/src/lib.rs:36-42 | in every mode: one iceberg offer of 32 that shows one unit at a time makes a buy of 32 write more than 64 events |
| `Reports.TradeIsReported` | crates/matchx-engine/src/lib.rs:523-567 | a fill reports the maker's price and what maker and taker have left, the update behind it what the level holds after the trade, and nothing else is written |
| `Reports.CancelIsReported` | crates/matchx-engine/src/lib.rs:652-672 | a cancellation reports what the order had left and what its level holds without it |
| `Reports.PreventionIsReported` | crates/matchx-engine/src/lib.rs:462-519 | a maker that prevention cancels is reported just as if its owner had cancelled it; one that it decrements, by the update of its level alone, with the overlap off what it has left |
| `Reports.RestingReportIsPartial` | crates/matchx-engine/src/lib.rs:348-365 | the update for an order that comes to rest carries the order's quantity, which is the level's if and only if the level held nothing before |
| `Tickers.UpdatesAreExact` | crates/matchx-engine/src/lib.rs:348-365 | over every run: the last update of every level says what the level holds throughout, if and only if every order that comes to rest finds its level holding nothing, or is refused where the level holds just its quantity |
| `Witnesses.UpdatesCanBePartial` | crates/matchx-engine/src/lib.rs:348-365 | in every mode: after offers of ten and of five at one price the level's last update says five |
| `Terms.AnsweredExactly` | crates/matchx-engine/src/lib.rs:276-330 | an order that may match is turned away, with nothing but that rejection written, if and only if its quantity is zero, else its id rests, else it is fill or kill and less than its quantity is indexed where it reaches, else its own group is first on its route under CancelNewest; and is accepted, on its own terms, if and only if none of these holds |
| `Terms.EnterTakes` | crates/matchx-engine/src/lib.rs:332-333 | in every mode and on every well-formed book: what the log says an order took as the taker is the smaller of its quantity and what it can get on its route; one that is turned away or post-only took nothing |
| `Terms.AcceptsOnItsTerms` | crates/matchx-engine/src/lib.rs:290-297 | a market order's taker accepts every price that an order can rest at, any other order's exactly those that its own price allows |
| `Terms.ReachableExactly` | crates/matchx-engine/src/lib.rs:290-297 | the orders that an order reaches are all resting orders of the other side at the prices that its terms allow, whole sides for market orders, and no others |
| `Terms.TakesWhatItReaches` | crates/matchx-engine/src/lib.rs:290-333 | on a facing book with exact bests an accepted order takes, from the front of what its terms reach, as much as there is, up to its quantity; so a market order takes the whole other side if it must, whatever its price field says |
| `Terms.RestsExactly` | crates/matchx-engine/src/lib.rs:346-373 | an order that may match comes to rest if and only if it was accepted, is a good-till-cancelled limit or iceberg order, lacks something, is not cancelled by prevention and finds room; it rests last at its own price with just what it lacks, under its own type, slice and group; a market, immediate-or-cancel or fill-or-kill order never rests |
| `Terms.LeftoverIsCancelled` | crates/matchx-engine/src/lib.rs:335-373 | what an accepted market, immediate-or-cancel or fill-or-kill order lacks, or one that prevention cancels, is the quantity of the last event, a cancellation, less exactly what a decrement cut |
| `Terms.PostOnlyRestsWhole` | crates/matchx-engine/src/lib.rs:191-226 | a post-only order takes nothing, is turned away if and only if it would meet somebody, and otherwise rests with its whole quantity unless its id rests or there is no room |
| `Terms.ModifiedExactly` | crates/matchx-engine/src/lib.rs:682-714 | a modified order comes back on its old side at the new price with the new quantity: the event behind its modification and its level's update accepts it so, or rejects a quantity of zero; its fills are those of the route at the new price without a group; it rests if and only if it lacks something, with just that, last at the new price, as a limit order without a group |
| `Terms.ModifiedMeets` | crates/matchx-engine/src/lib.rs:702-712 | on a facing book with exact bests that route is the opposing orders that the new price reaches, in price-time priority |
| `Terms.UnknownIsRejected` | crates/matchx-engine/src/lib.rs:673-679 | cancelling or modifying an id that does not rest writes that rejection and does nothing else |
| `Terms.CommandIsServed` | crates/matchx-engine/src/lib.rs:124-149 | a new order is accepted, takes and rests on the terms of its command's fields, and files no stop |
| `Terms.StopWaits` | crates/matchx-engine/src/lib.rs:229-274 | a stop with a quantity and a trigger is accepted and waits on its own side only, under its trigger price, with its command's limit price, quantity, time in force, slice and group; without one of the two it is rejected for that |
| `Terms.FiredStopIsServed` | crates/matchx-engine/src/lib.rs:589-607 | a stop that fires says so and is then served as a limit order at its limit price, on its own terms otherwise |
| `Engines.MatchingEngine.constructor` | crates/matchx-engine/src/lib.rs:75-92 | a new engine stands for the empty engine |
| `Engines.MatchingEngine.Emit` | crates/matchx-engine/src/lib.rs:96-118 | appends the event with the next sequence number, to the call's buffer and to the log |
| `Engines.MatchingEngine.MatchOne` | crates/matchx-engine/src/lib.rs:415-568 | one turn of the concrete loop is one round of the specification |
| `Engines.MatchingEngine.TradeSlot` | crates/matchx-engine/src/lib.rs:523-567 | a trade with the maker's current slice, in place |
| `Engines.MatchingEngine.Prevent` | crates/matchx-engine/src/lib.rs:452-521 | the four self-trade modes, in place |
| `Engines.MatchingEngine.MatchAgainstBook` | crates/matchx-engine/src/lib.rs:407-570 | the concrete loop does what the recursive match does, and says whether to cancel the taker |
| `Engines.MatchingEngine.Validate` | crates/matchx-engine/src/lib.rs:276-319 | the checks before acceptance give exactly the specified reason, or none |
| `Engines.MatchingEngine.StpFirstMakerMatches` | crates/matchx-engine/src/lib.rs:379-401 | whether the first maker the taker would meet is of its group |
| `Engines.MatchingEngine.Settle` | crates/matchx-engine/src/lib.rs:335-373 | what becomes of an order after matching, as `Terms.RestsExactly` and `Terms.LeftoverIsCancelled` say |
| `Engines.MatchingEngine.PlaceStop` | crates/matchx-engine/src/lib.rs:229-274 | a stop is checked, accepted and filed in its queue |
| `Engines.MatchingEngine.ProcessNewOrder` | crates/matchx-engine/src/lib.rs:179-376 | the concrete engine after a new order of any type is the specified one, which reaches, takes and rests as `Terms` says |
| `Engines.MatchingEngine.FireStops` | crates/matchx-engine/src/lib.rs:585-635 | one side's stops fire from the front while they trigger |
| `Engines.MatchingEngine.DrainStopTriggers` | crates/matchx-engine/src/lib.rs:576-642 | the concrete cascade ends and is the specified one |
| `Engines.MatchingEngine.ProcessCancel` | crates/matchx-engine/src/lib.rs:652-680 | the concrete cancellation is the specified one |
| `Engines.MatchingEngine.ProcessModify` | crates/matchx-engine/src/lib.rs:682-722 | the concrete modification is the specified one, which is at the new price as `Terms.ModifiedExactly` says |
| `Engines.MatchingEngine.Process` | crates/matchx-engine/src/lib.rs:122-170 | from every sound state and for every command that does not miss the index on its way, which is when the source does not panic: the concrete engine is the specified one, sound again, and the events returned are exactly what the log grew by |
| `Bytes.FromToLE` | crates/matchx-journal/src/codec.rs:10-20 | reading little-endian bytes undoes writing them |
| `Bytes.ToFromLE` | crates/matchx-journal/src/codec.rs:30-46 | writing little-endian bytes undoes reading them |
| `Bytes.ToLEField` | crates/matchx-journal/src/codec.rs:13-21 | byte i of a written integer is its i-th digit to base 256, the lowest first |
| `Codec.CommandTrip` | crates/matchx-journal/src/codec.rs:70-205 | decoding an encoded command followed by any bytes gives the command back and stops at those bytes |
| `Codec.DecodeIsExact` | crates/matchx-journal/src/codec.rs:70-205 | decoding accepts a byte string with a given command if and only if the command's encoding is a prefix of it |
| `Codec.EncodingsAreApart` | crates/matchx-journal/src/codec.rs:70-113 | no command's encoding is the beginning of another's |
| `Codec.Layout` | crates/matchx-journal/src/codec.rs:60-113 | what stands where in an encoding: the command's tag, its integers at fixed places with the lowest byte first, the bytes for side, order type and time in force, and the optional fields of an order, each a zero or a one and its bytes, to the end |
| `Codec.EncodeCommand` | crates/matchx-journal/src/codec.rs:70-113 | the buffer that is appended to ends up as the encoding |
| `Codec.DecodeCommand` | crates/matchx-journal/src/codec.rs:117-205 | the moving cursor finds what the parser finds, errors included |
| `Records.RecordTrip` | crates/matchx-journal/src/codec.rs:6-58 | decoding an encoded record followed by any bytes gives sequence, command and exact length |
| `Records.RecordIsExact` | crates/matchx-journal/src/codec.rs:26-58 | a record decodes with exactly its encoding's length if and only if the data starts with that encoding |
| `Records.DecodesExactly` | crates/matchx-journal/src/codec.rs:26-58 | from the bytes alone: decoding fails on the checksum if and only if the bytes hold a whole record whose stored checksum is not that of the sequence number's and the payload's bytes; it finds a command if and only if they hold one whose checksum is and whose payload begins with that command's encoding |
| `Records.EncodedFrame` | crates/matchx-journal/src/codec.rs:6-23 | an encoded record is the payload's length and the sequence number, lowest byte first, the encoded command, and the checksum of what stands between the length and itself |
| `Records.DecodeIsLocal` | crates/matchx-journal/src/codec.rs:26-58 | what is decoded depends only on the bytes used |
| `Records.TornRecord` | crates/matchx-journal/src/codec.rs:26-38 | every strict prefix of a record is refused for its length alone, whatever the checksum |
| `Logs.ReadSegmentIsExact` | crates/matchx-journal/src/reader.rs:37-45 | reading succeeds on exactly the byte strings that are records and nothing else, with their entries |
| `Logs.ReadFailsWhereScanStops` | crates/matchx-journal/src/reader.rs:37-45 | reading fails, if it does, with the error of the record where the longest decodable prefix ends |
| `Logs.ScanIsLongest` | crates/matchx-journal/src/recovery.rs:41-51 | no decodable prefix is longer than what the scan keeps |
| `Logs.CutLog` | crates/matchx-journal/src/recovery.rs:35-63 | a log of written records cut anywhere recovers to exactly the records that are whole |
| `Recovery.RecoverFile` | crates/matchx-journal/src/recovery.rs:35-63 | the file is cut to its longest decodable prefix; the report names the last sequence kept and the bytes cut |
| `Recovery.RecoveryIsExact` | crates/matchx-journal/src/recovery.rs:35-63 | what recovery leaves reads back in full, no decodable prefix exceeds it, and a second recovery cuts nothing |
| `Recovery.JournalTornTail` | crates/matchx-journal/src/recovery.rs:35-63 | n encoded records with a strict prefix of another behind them recover to exactly n, with no assumption on the checksum |
| `Recovery.RecoverDir` | crates/matchx-journal/src/recovery.rs:14-25 | every segment is recovered and the report accumulates the segments' reports |
| `Recovery.RecoveredDirReads` | crates/matchx-journal/src/recovery.rs:14-25 | a recovered directory reads back in full, with what was kept of each segment |
| `Recovery.DirReportCountsCuts` | crates/matchx-journal/src/recovery.rs:14-25 | the report counts every byte that recovering the segments cut off, and no other |
| `Recovery.DirReportNamesLast` | crates/matchx-journal/src/recovery.rs:19-21 | the report names the last kept entry if and only if that has a sequence number other than zero or no segment ends in one |
| `Recovery.CutDirRecovers` | crates/matchx-journal/src/recovery.rs:14-25 | a directory whose segments were cut anywhere recovers to a prefix of what was written if and only if no whole record is left behind a segment that was cut |
| `Recovery.GapCanOpen` | crates/matchx-journal/src/recovery.rs:14-25 | a first segment that lost its one record and a second that kept its own recover to the second alone |
| `Recovery.FormatIsCoded` | crates/matchx-journal/src/codec.rs:6-58 | the record format meets everything the log results ask of a format |
| `Readers.ReadAll` | crates/matchx-journal/src/reader.rs:34-48 | the nested loops return the entries of all segments in order, or the first error |
| `Readers.FirstErrorCounts` | crates/matchx-journal/src/reader.rs:37-45 | reading several segments fails with the error of the first that does not read |
| `Readers.StreamingReader.NextEntry` | crates/matchx-journal/src/streaming_reader.rs:45-80 | each call yields the next entry of what is still to come, the end, or the error |
| `Readers.StreamingReader.OpenNextSegment` | crates/matchx-journal/src/streaming_reader.rs:33-42 | what is still to come after opening is the segments from the current one on |
| `Readers.StreamAgreesExactly` | crates/matchx-journal/src/streaming_reader.rs:51-62 | on a segment the two readers differ if and only if one to three stray bytes follow its last record, which streaming passes over |
| `Readers.StrayBytesDiffer` | crates/matchx-journal/src/streaming_reader.rs:51-62 | one to three bytes alone are an empty segment to streaming and an error to reading everything |
| `Readers.StreamingAgrees` | crates/matchx-journal/src/streaming_reader.rs:45-80 | streaming yields what reading everything yields, on every list of segments that reads at all |
| `Readers.ReadersAgree` | crates/matchx-journal/src/streaming_reader.rs:45-80 | without stray bytes both readers agree, errors included |
| `Writer.JournalWriter.OpenSegmented` | crates/matchx-journal/src/writer.rs:43-71 | opening goes on with the last segment or starts the first, with a limit of at least one byte |
| `Writer.JournalWriter.AppendRaw` | crates/matchx-journal/src/writer.rs:88-103 | a record goes into the open segment, or into a new one if that is not empty and would become too long |
| `Writer.JournalWriter.AppendRawBatch` | crates/matchx-journal/src/writer.rs:80-86 | a batch is placed record by record |
| `Writer.SegmentsAreFull` | crates/matchx-journal/src/writer.rs:93-100 | for every history, limit and content of the open segment: the segments hold the records in order, and one is followed by another only if the first record of that did not fit behind it |
| `Writer.FittingStays` | crates/matchx-journal/src/writer.rs:88-103 | records that fit behind the open segment together all go there, as everything does without a limit |
| `Writer.PlacedBehind` | crates/matchx-journal/src/writer.rs:88-103 | appending changes no segment before the open one |
| `Writer.PlacedAllReads` | crates/matchx-journal/src/writer.rs:88-123 | whatever the limit, what was appended reads back behind what was there |
| `Writer.SegmentedIsFlat` | crates/matchx-journal/src/writer.rs:88-123 | for every history and limit both readers return exactly what was appended, in order, and no segment exceeds the limit unless it is a single record |
| `AsyncJournals.StepHolds` | crates/matchx-journal/src/async_journal.rs:78-218 | every step of producer, closer and worker keeps the protocol's invariant |
| `Backpressure.StaysBounded` | crates/matchx-journal/src/async_journal.rs:53-64 | in every reachable state the queue holds no more messages than its capacity, or one if that is zero, and the worker no more records than the batch size, or one |
| `Backpressure.SendsExactly` | crates/matchx-journal/src/async_journal.rs:91-96 | an append past its checks is sent exactly if the worker is there and the queue has room, or has no capacity and the worker waits; otherwise nothing changes but that it is given up |
| `Backpressure.BatchesFill` | crates/matchx-journal/src/async_journal.rs:182-204 | the worker stops filling a batch only when that is full, nothing is queued, or it was told to stop |
| `Backpressure.RefusesAppends` | crates/matchx-journal/src/async_journal.rs:78-84 | however it goes on, a degraded or closed journal takes no append but one that had passed its checks before |
| `Durability.NothingIsReordered` | crates/matchx-journal/src/async_journal.rs:156-218 | in every reachable state the durable records, the worker's batch and the queue spell what was sent, in order, and the file holds the first and a part of the second |
| `Durability.DurableBounded` | crates/matchx-journal/src/async_journal.rs:91-108 | durable never exceeds the last sequence sent; it exceeds accepted only between a send and the store that reports it |
| `Durability.CloseDrains` | crates/matchx-journal/src/async_journal.rs:114-126 | after a close without a failed write everything sent is in the file if and only if no record was sent behind the shutdown message; at most one can have been, and only if it was past its checks when the journal was closed |
| `Closing.ClosingGoesOn` | crates/matchx-journal/src/async_journal.rs:114-126 | in every reachable state of a closed journal whose closer is not done, write failures and full queues included, the closer or the worker can take a step |
| `Closing.ClosingEnds` | crates/matchx-journal/src/async_journal.rs:114-126 | from a closed journal no run takes more such steps than there is work left, whatever the producer does in between |
| `Durability.CrashKeepsDurable` | crates/matchx-journal/src/async_journal.rs:206-212 | on any file and at any moment, in mid-write or after a failed one, recovery finds the old whole records; where the file ended with those, a prefix of what was sent with every durable record in it; where it ended in a tear, nothing that was sent if and only if the bytes from the tear on do not begin with a record |
| `Durability.TornFileLosesDurable` | crates/matchx-journal/src/async_journal.rs:206-212 | a run on a file of four torn bytes that reports a record durable which recovery does not find |
| `Durability.JournalSurvivesCrash` | crates/matchx-journal/src/async_journal.rs:156-218 | the same for the journal's own format, whatever the checksum: the recovered file reads back with the old records first, and on a file that ended with those the report is not below durable |
| `Durability.DurableCanLead` | crates/matchx-journal/src/async_journal.rs:91-98 | on any file, a run in which a record is durable before it counts as accepted |
| `Durability.CloseCanLoseAnAppend` | crates/matchx-journal/src/async_journal.rs:78-126 | a run in which closing loses a record that the journal accepted |

## Left out

- Integer width of totals and counters: quantities, level totals, sequence numbers and timestamps are unbounded naturals; command fields are bounded by their types.
- Fixed-size buffers (Fenwick data, dense levels, bitset words, arena slots) are fields of type `seq` that methods update in place of the same length; sharing of a buffer between objects is not captured.
- Sorted maps: sparse levels are maps, and their first and last keys are found by going over all keys; hash maps are maps.
- `HugePageArena`, uninitialised memory, cache-line layout and generation counters: memory detail around the arena that is modelled.
- The event buffer's fixed 64 slots: the buffer is a sequence, and exactly when 64 slots suffice is a theorem.
- Event timestamps: the logical clock always equals the sequence number.
- `PriceTimeFifo::match_order` and fill sinks: the engine calls only the price comparison.
- OrderBooks.OrderBook.MaybeRecenter: requires the thresholds that it computes, and where it moves the window its old and new ends, to fit in 64 bits, where the source would overflow.
- OrderBooks.OrderBook.ReduceOrderQty: asks that a reduction is no more than what the order has left, as the engine's only call sees to; a larger one would take the level's total below what its other orders hold.
- Engines.MatchingEngine.Process: commands on which the source panics because an order's price is no longer indexed; `Steadiness.ProcessSucceeds` is when that does not happen, `Steadiness.RunsSucceed` says of which runs, and the specification covers the others.
- OrderBooks.OrderBook.ForceRecenter: where it moves the window, requires the old and the new one to end within 64 bits, where the source would overflow; the other book operations and the engine have no such limit.
- Budget.NewOrderFits: commands that fire no stop; one that does is bounded by `Budget.ProcessSpends`, without an exact condition.
- Binary search of stop positions and `partition_point`: a first-position function on the stop queues, shown to split sorted queues as the library function does.
- Checksum internals: a function parameter.
- File names, directory listings and their lexicographic order: segments are an indexed list.
- I/O errors other than a failed write in the asynchronous journal.
- Hardware memory ordering and threads: every atomic or channel operation is one step; durable means that the write returned.
- More than one producer, and scheduling: that a step which stays possible is taken some time is assumed, not modelled.
- `EndToEndPipeline`, snapshots, latency metrics and benchmarks.
