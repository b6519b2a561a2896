# Matching engine: models and proofs

The repository is a matching engine for perpetual futures in C++: a limit order book on a hand-written
red-black tree, three matching loops over it, an event-sourced variant that can be replayed from its log,
and around them lock-free queues, a persistence pipeline, a group-committed write-ahead log, signed tokens
and positions. This project models those parts in Dafny and proves what they keep over every call and every
run. `dafny verify dfyconfig.toml` checks all of it.

## How the model is laid out

**The book.** `OrderBookSide` is a class over order objects that are themselves the nodes of the tree and of
the lists of orders at one price, with the assignments of the source: descent, splice, rotations, both
fix-ups, level totals, id map. Its links are read as one value (`TreeShape`: a tree and the context around a
place in it), and each assignment is proved against that value (`TreeRotation`, `TreePaint`, `TreeRemoval`).
What happens to the colours is a function of colours alone (`Colours`): `Grown` for an insertion, `Cut` for a
removal. The class is proved equal to these (`TreeColours`), and balance is then a matter of shapes
(`RedBlack`, `Rising`).

**The removal fix-up.** The source calls its `fix_delete` a simplified implementation, and it is: it does not
start when the hole is a missing child, and it can take the sentinel for a sibling and paint it red. The model
follows it, red sentinel included, up to the point where it would rotate around the sentinel. There
`Colours.Cut` is `Broken`, `Remove` returns `clean == false`, and nothing is promised afterwards.

**The engine.** The matching loop is a function of values (`Matching`), the market a state with its
operations (`Market`), and the engines are classes proved to compute them over a book that is a queue
(`BookSides`, `Engine`, `EventEngine`, `SimdEngine`). `MatchAnswers`, `MarketAnswers`, `TradeAnswers` and
`EventAnswers` say what those values come to without their own words: by prices, users, statuses, order types and
payloads alone. Runs of placements and cancellations are in `MarketRuns`,
`MarketDeterminism` and `EventRuns`; `EnginesAgree` compares the two engines on one stream of orders.

**Queue and tree.** `BookRuns` takes a tree through any sequence of insertions, trades at the front, removals and
changes of quantity, looking up the front order and the ids as the engine does, and proves it equal to the queue,
level totals included, as long as the colours are known; the lists at the prices follow the walk as long as nobody
enters at a price where someone was stamped later. `MarketSteps` turns each operation of the engine into such steps.
So what `MarketRuns` proves of every run it proves of the queues, and of the trees (`MarketTrees`) exactly for the
runs in which no removal rotates around the sentinel and no front lies a thousand steps down: `MarketSteps.Stands`,
which is decided by the run's own steps and does not depend on the clock (`MarketTreesAgree`). `MarketTreesBreak` is a
run where it fails. It needs cancellations: when only the front ever leaves, black depths never fall from left to
right and the fix-up always finds its siblings (`Rising`, `FrontRuns`). So the trees of runs without cancellations
(`MarketFronts`), and all trees of the event-sourced engine (`EventTrees`), stand.

**The rest.** `Events`, `EventLog`: the text form of events, the framed log file and its reader. `SpscQueue`,
`MpmcQueue`, `Persistence`, `GroupCommit`: protocols as state machines over atomic steps, with theorems over
every interleaving. `Base64`, `Token`; `DeterministicCalculator`; `Positions`.

The clock, the keyed hash of the tokens, the bytes of the log file and the outcome of a disk sync are
parameters.

## Model

| member | source | states |
|---|---|---|
| `OrderBook.OrderBookSide.constructor` | src/core/orderbook.cpp:10-15 | A new side is the empty tree, no levels, no ids, and a black sentinel. |
| `OrderBook.OrderBookSide.RotateLeft` | src/core/orderbook.cpp:282-298 | The assignments turn the subtree at `x` into its left rotation and leave every other link of the tree as it was, parents and root included. |
| `OrderBook.OrderBookSide.RotateRight` | src/core/orderbook.cpp:300-316 | The mirror image. |
| `TreeRotation.RotateLeftLinks` | src/core/orderbook.cpp:282-298 | For any links that form a tree, those a left rotation leaves form the tree with that subtree rotated. |
| `TreeRotation.RotateRightLinks` | src/core/orderbook.cpp:300-316 | The mirror image. |
| `TreePaint.PushUpLinks` | src/core/orderbook.cpp:322-326 | Recolouring parent, uncle and grandparent changes exactly these colours of the tree. |
| `OrderBook.OrderBookSide.FixInsert` | src/core/orderbook.cpp:318-355 | The loop keeps the in-order walk, ends with a black root, leaves the sentinel alone and colours the tree as the fix-up on shapes says. |
| `OrderBook.OrderBookSide.Insert` | src/core/orderbook.cpp:34-82 | Refused exactly for a price or quantity that is not positive, then with no change. Else the order enters walk, keys, tree, list, level total and id map: the walk at the place of its priority, and the side as a whole becomes `Market.WithOrder` of what it was. The lists go on following the walk exactly when they did and nobody at the price was stamped later. A red-black tree stays one. |
| `RedBlack.GrownRedBlack` | src/core/orderbook.cpp:318-355 | An insertion at any place keeps a red-black tree red-black. |
| `RedBlack.RedBlackHeight` | include/core/orderbook.h:23-24 | The O(log n) promise: a red-black tree of n orders is lower than 2b when n + 1 < 2^b. |
| `RedBlack.DepthWithinLimit` | src/core/orderbook.cpp:219-231 | A red-black tree below 2^500 - 1 orders never has its front a thousand steps down. |
| `OrderBook.OrderBookSide.FindMin` | src/core/orderbook.cpp:414-419 | The leftmost order of a subtree, with the left spine that leads to it. |
| `OrderBook.OrderBookSide.FixDelete` | src/core/orderbook.cpp:357-412 | The loop keeps the walk and colours tree and sentinel as the fix-up on shapes says; it stops short exactly where that says it would rotate around the sentinel. |
| `OrderBook.OrderBookSide.Remove` | src/core/orderbook.cpp:84-172 | Succeeds exactly for an order of the side, else no change. It is clean exactly when `Colours.Cut` of the old colours is not broken; then the order has left walk, tree, list, level and id map, all other orders keep their places, the colours are `Cut`'s, and the side is `Market.WithoutOrder` of what it was. From a red-black tree it is always clean, leaves no two reds in a row and the sentinel as it was, and the tree stays red-black exactly when `KeepsRedBlack` holds. |
| `RedBlack.CutRedBlack` | src/core/orderbook.cpp:100-167 | From a red-black tree every removal goes through, its fix-up never enters the loop, and no two reds meet; the tree stays red-black exactly when `KeepsRedBlack` holds: no childless black order goes missing, unless it was the last. |
| `RedBlack.SplicedRedBlack` | src/core/orderbook.cpp:165-167 | In a red-black tree an only child is red and its parent black, so the fix-up paints the child and never enters its loop; the same exact condition for the place that is spliced out. |
| `RedBlack.RestoredRepairs` | src/core/orderbook.cpp:357-412 | With a black sentinel the fix-up makes a red-black tree of any tree in which nothing is wrong but one black order missing on the paths through one place. |
| `Rising.GrownSound` | src/core/orderbook.cpp:318-355 | An insertion anywhere keeps black depths from falling from left to right. |
| `Rising.CutFirstSound` | src/core/orderbook.cpp:357-412 | So does removing the first order, whose fix-up goes through and leaves a black sentinel black. |
| `Rising.FirstWithinReach` | src/core/orderbook.cpp:219-231 | In such a tree the first of n orders lies less than 2b steps down when n + 1 < 2^b. |
| `Colours.NoSiblingMissed` | src/core/orderbook.cpp:357-412 | From a black sentinel, a fix-up that meets no missing sibling goes through and leaves the sentinel black. |
| `Colours.NoRemovalMisses` | src/core/orderbook.cpp:84-172 | So a removal can paint the sentinel, or break, only where its fix-up meets a missing sibling. |
| `Priority.PositionUnique` | src/core/orderbook.cpp:49-57 | The place the descent finds is the only one that keeps the order by price, then time, then arrival. |
| `Priority.InsertKeepsSorted` | src/core/orderbook.cpp:49-57 | A newcomer at its place keeps a sorted queue sorted, and everyone behind it is strictly worse. |
| `Priority.ArrangedIsStable` | src/core/orderbook.cpp:49-57 | Arrivals inserted one after the other end up in priority order, each once, equal keys in order of arrival. |
| `BookFill.FillSide` | src/core/orderbook.cpp:34-82 | Any new orders, inserted in turn into a new side: the tree is red-black, the walk is the arrivals in stable priority order, and the lists follow the walk exactly when no order was stamped earlier than one before it at its price. |
| `BookFill.FrontOfFilled` | src/core/orderbook.cpp:209-234 | From such a side, below 2^500 - 1 orders, `best_order` is the arrival that comes first in that order. |
| `PriceLevels.Append` | src/core/orderbook.cpp:441-456 | The order joins the back of the doubly linked list of its price and its remaining quantity the total. |
| `PriceLevels.Unlink` | src/core/orderbook.cpp:458-477 | The order leaves the list from whatever place; the total loses its remaining quantity and is zero exactly when the list is empty and nothing was traded at the price. |
| `BookViews.FifoExactlyWhenNotEarlier` | src/core/orderbook.cpp:441-456 | Queueing by priority and queueing at the back of the price's list agree if and only if nobody at the price was stamped later. |
| `BookViews.InsertKeepsViews` | src/core/orderbook.cpp:34-82 | Lists that follow the walk still do after an insertion if and only if nobody at the price was stamped later. |
| `BookViews.StrayedStays` | src/core/orderbook.cpp:441-456 | No later insertion brings a list back that strayed from the walk. |
| `BookViews.RemoveKeepsViews` | src/core/orderbook.cpp:84-94 | A removal from walk and list keeps lists that follow the walk following it. |
| `OrderBook.OrderBookSide.Fill` | src/core/matching_engine.cpp:164-176 | A trade with an order of the book leaves its level total alone, so the side becomes `Market.WithTrade` of what it was, total and remaining quantities apart by what was traded. |
| `OrderBook.OrderBookSide.UpdateQuantity` | src/core/orderbook.cpp:479-500 | Refused exactly for an order not in the book. Else the side becomes `Market.WithQuantity` of what it was, tree and lists as they were, and it stays sound if and only if the new quantity is positive, or zero where something was traded at the price. |
| `OrderBook.OrderBookSide.BestOrder` | src/core/orderbook.cpp:209-234 | The front of the walk; null if and only if the side is empty or the front lies a thousand steps or more to the left. |
| `OrderBook.OrderBookSide.BestPrice` | src/core/orderbook.cpp:178-194 | The price at the front of the walk, 0 when there is none. |
| `OrderBook.OrderBookSide.BestLevel` | src/core/orderbook.cpp:236-246 | The level of the best price: its total is what its orders have remaining and what was traded there since it was made; its first order is the front of the walk when the lists follow the walk. |
| `OrderBook.OrderBookSide.GetDepth` | src/core/orderbook.cpp:256-280 | The n best levels, best first, none skipped and each as it stands. |
| `BookRuns.RunSide` | src/core/orderbook.cpp:34-172 | From an empty side through any possible steps (an order enters, the front trades, an id leaves or changes its quantity): the tree goes through exactly when the colours stay known, and then shows the queue of the steps, level totals included; each price's list is the walk restricted to the price if nobody entered at a price where someone was stamped later. |
| `BookRuns.TakeAll` | src/core/orderbook.cpp:34-172 | The same from any sound side whose lists follow its walk. |
| `BookRuns.Fronts` | src/core/orderbook.cpp:209-246 | Where the lists follow the walk, `best_order` and the first order of `best_level` are one order, the front of the queue. |
| `FrontRuns.FrontOnlyStands` | src/core/orderbook.cpp:84-172 | Through any steps below 2^500 entries in which nobody leaves but the first, the colours stay known, the sentinel black and the front in reach. |
| `BookSides.BookSide.Place` | src/core/orderbook.cpp:49-57 | How many orders of the queue stand ahead of a newcomer. |
| `BookSides.BookSide.Insert` | include/core/orderbook.h:31-32 | The contract the engines use: the order joins the queue at its place and its quantity the level's total. |
| `BookSides.BookSide.Remove` | include/core/orderbook.h:34-35 | The contract the engines use: the order leaves the queue, and its level if nothing is left of the total. |
| `Matching.MatchIsGreedy` | src/core/matching_engine.cpp:64-162 | The loop in closed form: fills are with the orders at the front, one after the other, each in full but the last; those filled in full leave; quantities add up; what is left of the book is the rest of it. |
| `Matching.MatchStops` | src/core/matching_engine.cpp:90-97 | Below the iteration limit the loop ends only when the taker is filled, the book is empty or its front does not match. |
| `Matching.MatchComplete` | src/core/matching_engine.cpp:64-162 | Below the limit the loop trades the smaller of what the taker wants and what all the orders in reach offer. |
| `Matching.WaitingExactly` | src/core/matching_engine.cpp:87-97 | The loop stops with a match still waiting if and only if more orders are in reach than the limit and as many of them as the limit do not fill the taker: a condition on taker and book before the loop. |
| `Matching.ReachIsEveryone` | src/core/matching_engine.cpp:237-254 | On a sound book the orders in reach are all the orders the taker could trade with, wherever they are. |
| `Matching.MatchKeepsTerms` | src/core/matching_engine.cpp:164-176 | The loop touches nothing of a taker but quantities and status. |
| `Matching.MatchAgrees` | src/core/matching_engine_event_sourcing.cpp:159-275 | The three loops agree: a LIMIT taker meets the same fate under each, on books that agree up to statuses and stamps; any taker does under one and the same loop. |
| `Matching.LeaveIfOneShot` | src/core/matching_engine.cpp:134-146 | An IOC or FOK order leaves the loop after one trade, cancelled when something is left, but not when the trade emptied the book; a LIMIT or MARKET order leaves here only when the book is empty. What that means for the volume traded: `MatchAnswers`. |
| `MatchAnswers.ClassicLimitTakes` | src/core/matching_engine.cpp:64-162 | Below the limit a LIMIT order trades the smaller of what it wants and what all resting orders at prices it accepts have remaining, wherever they stand. |
| `MatchAnswers.ClassicMarketTakes` | src/core/matching_engine.cpp:87-162 | A MARKET order trades the smaller of what it wants and all that rests, trade after trade. |
| `MatchAnswers.OneShotTakes` | src/core/matching_engine.cpp:134-146 | An IOC or FOK order has exactly one trade, with the front, if the front is at a price it accepts, and else none. |
| `MatchAnswers.DeterministicTakes` | src/core/matching_engine_event_sourcing.cpp:159-279 | Under the event-sourced rule LIMIT and MARKET orders alike trade the smaller of what they want and what rests at prices they accept. |
| `MatchAnswers.SimdTakes` | src/core/matching_engine_art_simd.cpp:31-165 | Under the third rule so does an order of any type, IOC and FOK included. |
| `MatchAnswers.NeverMatches` | src/core/matching_engine.cpp:237-254 | No classic trade is with an order of the same side, and the third loop stops at a price of zero. |
| `MatchAnswers.TakerStatus` | src/core/matching_engine.cpp:149-154 | A new order of any type leaves the classic loop filled if nothing remains, partially filled if it traded, else pending. |
| `MatchAnswers.TakerEsStatus` | src/core/matching_engine_event_sourcing.cpp:258-275 | So it leaves the event-sourced loop. |
| `MatchAnswers.SimdStatuses` | src/core/matching_engine_art_simd.cpp:70-95 | The third loop stamps as it trades: makers that leave are filled, one that stays after a trade is partially filled, and so is the taker unless nothing remains of it. |
| `Engine.MatchingEngine.ExecuteTrade` | src/core/matching_engine.cpp:164-176 | Both orders move by the quantity. |
| `Engine.MatchingEngine.CreateTrade` | src/core/matching_engine.cpp:178-198 | The record of a trade, with the next sequence number and the time; the side of the aggressor is told by the larger sequence number. |
| `Engine.MatchingEngine.RemoveOrderFromBook` | src/core/matching_engine.cpp:207-227 | The order leaves its side, the order map and its user's list, and the user leaves the map with the last order. |
| `Engine.MatchingEngine.MatchOrder` | src/core/matching_engine.cpp:64-162 | The loop over order objects and maps computes `Matched`: book, counters, indexes, trades, and the taker with its final status. By `MatchAnswers`, what each type of order trades. |
| `Engine.MatchingEngine.ProcessOrder` | src/core/matching_engine.cpp:14-62 | An order of another instrument, without positive quantity, or a LIMIT order without positive price is rejected, and nothing but its status changes. Any other order leaves the whole engine in the state `Process` gives, with the trades of its match, whether its id is known or not. |
| `MarketAnswers.AcceptsExactly` | src/core/matching_engine.cpp:229-235 | Which orders change nothing, by instrument, quantity, type and price; any other is numbered, and each of its trades too. |
| `MarketAnswers.ArrivesAs` | src/core/matching_engine.cpp:20-27 | An accepted order matches as it came but for the next number and the time. |
| `MarketAnswers.RestsExactly` | src/core/matching_engine.cpp:33-57 | A new order is in its queue and in the order map afterwards if and only if it is a LIMIT order with something left over. |
| `MarketAnswers.KnownIdJoins` | src/core/matching_engine.cpp:33-57 | An order under an id the engine knows joins its queue if and only if the id is not there, and no index learns of it. |
| `MarketAnswers.ListsTell` | src/core/matching_engine.cpp:33-57 | A newcomer goes to the end of its user's list, and whoever leaves it leaves the others in order; an empty list goes. |
| `Engine.MatchingEngine.CancelOrder` | src/core/matching_engine.cpp:262-280 | Succeeds if and only if the id is in the order map, its order belongs to the user and its status is PENDING or PARTIAL; then the order is out of the map and cancelled, and else the engine is as it was. Either way the engine is in the state `Cancel` gives. |
| `MarketAnswers.CancelRefused` | src/core/matching_engine.cpp:262-271 | In any state nothing changes if whoever rests under the id has another user or is neither PENDING nor PARTIAL, or if nobody does. |
| `MarketAnswers.CancelTaken` | src/core/matching_engine.cpp:262-280 | An active resting order of the user leaves its queue, the order map and the engine, as cancelled, and it alone: the rest of its queue, the other side, the tape and the counters stay. |
| `MarketAnswers.CancelSpares` | src/core/matching_engine.cpp:262-280 | Whatever is cancelled, the orders of all other users stay in both queues, in order. |
| `Engine.MatchingEngine.CancelAllOrders` | src/core/matching_engine.cpp:282-294 | The engine is left in the state of cancelling each order of the user's list as it was. |
| `MarketBook.QueueMatched` | src/core/matching_engine.cpp:90-147 | What a match leaves of a sound queue is its tail, and sound. |
| `MarketBook.ProcessKeepsSound` | src/core/matching_engine.cpp:14-62 | Processing keeps both queues in priority order, of active LIMIT orders with something remaining. |
| `MarketBook.RestingClear` | src/core/matching_engine.cpp:27-57 | An order that rests is clear of the other side if and only if it was not cut short: not more than 10000 orders in its reach, or enough in the first 10000. |
| `MarketBook.ProcessUncrossed` | src/core/matching_engine.cpp:14-62 | An order leaves an uncrossed book uncrossed unless it is an acceptable LIMIT order that is cut short, and then it does not. |
| `MarketBook.CutShortExactly` | src/core/matching_engine.cpp:87-97 | Being cut short, a condition on order and queue, is exactly that the loop stops with a match waiting. |
| `MarketBook.OneShotStatus` | src/core/matching_engine.cpp:140-154 | An IOC or FOK order trades at most once and never ends CANCELLED: it leaves filled, partially filled or pending. |
| `MarketBook.CancelKeeps` | src/core/matching_engine.cpp:262-280 | Cancelling keeps the queues sound and the book uncrossed. |
| `MarketIndex.DropAllExact` | src/core/matching_engine.cpp:215-226 | The users' lists lose exactly the orders that left, and no list is empty or names an order twice. |
| `MarketIndex.ProcessKeepsIndex` | src/core/matching_engine.cpp:14-62 | Processing keeps the order map equal to the ids in the book, and each user's list to that user's orders in it. |
| `MarketIndex.CancelKeepsIndex` | src/core/matching_engine.cpp:262-280 | So does cancelling. |
| `MarketIndex.CancelAllExact` | src/core/matching_engine.cpp:282-294 | Cancelling all of a user's orders removes those and no others, keeps everyone else in order, and leaves the user without a list. |
| `MarketTotals.MakersMoved` | src/core/matching_engine.cpp:164-176 | After a match each maker, gone or not, is what it was, moved by the fills recorded with its id. |
| `MarketTotals.MakersFilled` | src/core/matching_engine.cpp:164-176 | A match adds its volume to what the makers have filled. |
| `MarketTotals.ProcessKeepsLedger` | src/core/matching_engine.cpp:14-62 | Processing keeps the ledger: each order's filled quantity is what the tape says it traded, filled and remaining make up its quantity, buys, sells and the volume counter have one total, and no trade names an unknown order. |
| `MarketTotals.CancelKeepsLedger` | src/core/matching_engine.cpp:262-280 | So does cancelling. |
| `MarketLevels.InsertLaw` | src/core/orderbook.cpp:441-456 | An insertion keeps the level law: a level's total is what its orders have remaining, plus what was traded there since it was made. |
| `MarketLevels.WithoutLaw` | src/core/orderbook.cpp:434-477 | So does a removal. |
| `MarketLevels.MatchLaw` | src/core/matching_engine.cpp:90-147 | So does a match. |
| `MarketLevels.TradeLaw` | src/core/matching_engine.cpp:164-176 | So does a trade with any order of the side. |
| `MarketLevels.QuantityLaw` | src/core/orderbook.cpp:479-500 | So does a new positive quantity for any order. |
| `MarketLevels.ProcessKeepsLevels` | src/core/matching_engine.cpp:14-62 | So does processing, on both sides. |
| `MarketLevels.EmptyLevelStays` | src/core/orderbook.cpp:434-439 | A level outlives its last order only when something was traded there, and its total is what its orders have remaining if and only if nothing was. |
| `MarketRuns.RunHolds` | src/core/matching_engine.cpp:14-294 | After any run of new orders and cancellations: queues sound, indexes, ledger and level law hold, and the engine knows only orders that were placed. |
| `MarketRuns.RunUncrossed` | src/core/matching_engine.cpp:14-294 | The book is uncrossed after any run none of whose orders is cut short. |
| `MarketRuns.AlwaysUncrossed` | src/core/matching_engine.cpp:14-294 | A run never crosses the book, at no point, if and only if none of its orders is cut short. |
| `MarketRuns.ShortRunsComplete` | src/core/matching_engine.cpp:87-97 | In a run of up to 10001 operations none is. |
| `MarketCrosses.SweepCrosses` | src/core/matching_engine.cpp:87-97 | After more than 10000 offers of one at one price, a bid for all of them is cut short and rests crossing the book. |
| `MarketRuns.TradesTell` | src/core/matching_engine.cpp:178-198 | The trades of an order are with the orders at the front of the queue, in turn, at their prices: buyer and seller with their users on their own sides, the instrument, consecutive numbers and the aggressor's side. |
| `MarketDeterminism.PositionByPrice` | src/core/orderbook.cpp:49-57 | A newcomer stamped no earlier than anyone queues by price alone. |
| `MarketDeterminism.RunsAgree` | src/core/matching_engine.cpp:14-294 | The same operations under two clocks that never run backwards give the same books, trades and indexes up to stamps. |
| `MarketTrees.TreesOfRun` | src/core/matching_engine.cpp:14-294 | For any run, trees driven by its insertions, trades and removals go through exactly when `Stands` holds of both sides, and then carry the books of the run: walk, level totals, what was traded, and each price's list as the walk restricted to the price. |
| `MarketTrees.FrontsOfRun` | src/core/orderbook.cpp:209-246 | In such a tree the best order and the first order of the best level are one, the front of the run's queue. |
| `MarketTrees.RunInTime` | src/core/matching_engine.cpp:24-27 | In any run nobody enters a side where someone at the price was stamped later. |
| `MarketSteps.RunLeads` | src/core/matching_engine.cpp:14-294 | The steps a run makes on a side are possible one after the other and lead to the queue the run ends with. |
| `MarketTrees.TreeHolds` | src/core/matching_engine.cpp:14-294 | `RunHolds` for the tree of such a run: its walk is in priority order, its orders are sound, its levels obey their law. |
| `MarketTrees.TreesUncrossed` | src/core/matching_engine.cpp:14-294 | `RunUncrossed` for the trees of such a run. |
| `MarketTreesAgree.TreesAgree` | src/core/matching_engine.cpp:14-294 | `RunsAgree` for the trees: their colours, and so whether they stand, do not depend on the clock, and their queues are the same up to stamps. |
| `MarketTreesBreak.BalanceLost` | src/core/orderbook.cpp:165-167 | In the run below, under any clock, the tree of the first four orders is red-black, and after the first cancellation it is not. |
| `MarketTreesBreak.ScriptBreaks` | src/core/orderbook.cpp:363-371 | A run of sell orders and cancellations under any clock: the tree stands until the last cancellation, which rotates around the sentinel with three other offers in the book. |
| `MarketTreesBreak.SomeRunBreaks` | src/core/orderbook.cpp:363-371 | So there is a run of thirteen sell orders and cancellations for which `Stands` fails. |
| `MarketFronts.PlacementsStand` | src/core/matching_engine.cpp:14-62 | Whatever the orders and the clock, the trees of a run without cancellations stand, below 2^500 orders. |
| `SimdEngine.ArtSimdEngine.MatchOrderArtSimd` | src/core/matching_engine_art_simd.cpp:31-165 | The third loop computes `Match` under its own rule: taker, book and trades, with two clock readings for each. What those trades record: `TradeAnswers`. |
| `TradeAnswers.TradesSimdTell` | src/core/matching_engine_art_simd.cpp:81-84 | The same of the third loop: buyer and seller with their users on their own sides, instrument, price, quantity, aggressor, and the two clock readings of the trade. |
| `TradeAnswers.SimdTradesAgree` | src/core/matching_engine_art_simd.cpp:81-148 | A LIMIT order makes the trades of the classic loop, up to numbers and times. |
| `Text.ParseShow` | src/core/event_sourcing.cpp:68-161 | A number printed is read back. |
| `Text.ParseLoose` | src/core/event_sourcing.cpp:68-161 | A number is read behind spaces, with or without a sign, up to what is no digit. |
| `Text.ReadJoined` | src/core/event_sourcing.cpp:68-161 | Numbers joined by commas are read back one by one. |
| `Events.ReadsBack` | src/core/event_sourcing.cpp:15-161 | With codes printed as numbers, any event whose numbers are of its fields' types is read back, its reason cut at a line break, a terminator or its field's size. |
| `Events.RoundTrip` | src/core/event_sourcing.cpp:15-161 | So it is read back as written if and only if its reason fits its field, on one line. |
| `Events.RecordTells` | src/core/event_sourcing.cpp:15-65 | The record of each kind of event, field by field, with the number of each enumeration member. |
| `Events.RawNeverRead` | src/core/event_sourcing.cpp:15-21 | With codes printed as characters, as the source does, no event of any of its seven types is read back: the reader fails on the first field. |
| `EventLog.ReadFrame` | src/core/event_sourcing.cpp:422-447 | The first record of a file is read back, and the rest of the file is left; codes printed as numbers. |
| `EventLog.ScanWritten` | src/core/event_sourcing.cpp:212-240 | Reading a written log gives its events as they are read back, whatever follows in the file; codes printed as numbers. |
| `EventLog.CleanLogBack` | src/core/event_sourcing.cpp:212-240 | They are the events written if and only if every reason fits. |
| `EventLog.TornTail` | src/core/event_sourcing.cpp:432-447 | A last record cut short anywhere is read as one blank event after the whole ones. |
| `EventLog.EventStore.Initialize` | src/core/event_sourcing.cpp:201-243 | Opening succeeds exactly when the reader throws on no record: where a number is missing or fits no machine word. Negative ids wrap, high parts are dropped, and codes of no enumeration member are taken in. Events, count, last number and both indexes are then those of the file. |
| `EventLog.EventStore.AppendEvent` | src/core/event_sourcing.cpp:245-286 | Before opening nothing happens; after it the event, whatever its reason, is numbered, stamped, written and indexed, and the file is again the written log. |
| `EventLog.StampedTells` | src/core/event_sourcing.cpp:245-262 | An event without a number gets the first one past all of the log, one without a time the time of its number, and nothing else of it changes. |
| `EventLog.LatestTells` | src/core/event_sourcing.cpp:212-262 | No event has a number above the latest one, and unless that is 0 some event has it, whatever the order of the log. |
| `EventLog.PrefixTells` | src/core/event_sourcing.cpp:418-426 | The length of a record goes before it as eight bytes, the least significant first. |
| `EventLog.EventStore.GetEvents` | src/core/event_sourcing.cpp:288-307 | The events in range, as they are read back, that stand before the first one past it; in an ascending log, exactly those with a number in the range, ascending. |
| `EventLog.EarlyExitLosesNothing` | src/core/event_sourcing.cpp:295-303 | In an ascending log those are all the events in range. |
| `EventLog.RangeReturns` | src/core/event_sourcing.cpp:288-307 | An event is in the answer to a query by numbers if and only if it is in the log with a number in the range, and the answer ascends when the log does. |
| `EventLog.EventStore.GetOrderEvents` | src/core/event_sourcing.cpp:309-347 | For an indexed order, of the numbered events in the file: every placed and cancelled one of the order and every matched one it was in, on either side; never one about others only, and nothing for an order not indexed. |
| `EventLog.QueryReturns` | src/core/event_sourcing.cpp:309-347 | On any log the query gives back, of the numbered events, each placed and cancelled one of the order and each matched one it was in as taker or as maker, in order, and for an order other than 0 no event of a listed kind about others only. |
| `EventLog.OrderIndexTells` | src/core/event_sourcing.cpp:265-283 | The index lists under an order the numbers of its placed and cancelled events and of the matches it took, in order, and has no empty lists. |
| `EventLog.InstrumentIndexTells` | src/core/event_sourcing.cpp:265-283 | And under an instrument the numbers of its events. |
| `EventEngine.EventSourcedEngine.Exchange` | src/core/matching_engine_event_sourcing.cpp:190-238 | One trade: quantities, the record with the next number, and the two events it leaves when events are emitted. |
| `EventEngine.EventSourcedEngine.MatchOrderDeterministic` | src/core/matching_engine_event_sourcing.cpp:159-275 | The loop leaves desk, log, taker and trades as the value model says. |
| `TradeAnswers.TradesEsTell` | src/core/matching_engine_event_sourcing.cpp:203-227 | Trade i of an order is with the i-th order of the queue, at its price; buyer and seller, with their users, are on their own sides; it has the taker's instrument, the aggressor's side, and a number two past the trade before. |
| `EventEngine.EventSourcedEngine.ProcessOrderEs` | src/core/matching_engine_event_sourcing.cpp:40-88 | An order without positive price and quantity is rejected and only that is logged. Any other is numbered, logged, matched and queued as the value model says. |
| `EventEngine.EventSourcedEngine.ReplayEvents` | src/core/matching_engine_event_sourcing.cpp:114-157 | Replaying a log of distinct orders, with emission off, into an idle engine computes `Replay`. |
| `EventRuns.HandledSound` | src/core/matching_engine_event_sourcing.cpp:40-88 | Handling an order keeps the books sound. |
| `EventRuns.SameHandled` | src/core/matching_engine_event_sourcing.cpp:40-88 | The same order on two desks that agree leaves them agreeing, whatever its numbers there. |
| `EventRuns.RunNumbered` | src/core/event_sourcing.cpp:245-286 | The events of any run are numbered 1, 2, 3 and so on. |
| `EventRuns.TradesAudited` | src/core/matching_engine_event_sourcing.cpp:295-313 | Each trade leaves a matched event with the trade's own number, then an executed event with the next. |
| `EventRuns.OrderAudited` | src/core/matching_engine_event_sourcing.cpp:40-88 | An accepted order adds its placed event under its own number, then the two events of each of its trades, and nothing else. |
| `EventRuns.ReplayRebuilds` | src/core/matching_engine_event_sourcing.cpp:114-157 | Replaying the log of any run rebuilds the run's books, in order and quantity, and makes the same trades up to numbers and times. |
| `EventRuns.RunTraceable` | src/core/event_sourcing.cpp:454-511 | In the log of any run every order that traded or rests was placed before. |
| `EventRuns.RunDistinct` | src/core/matching_engine_event_sourcing.cpp:40-88 | Distinct requests give a log of distinct orders, as a replay asks, and no order in it that was not submitted. |
| `EventRuns.QueryComplete` | src/core/event_sourcing.cpp:309-347 | The index hides nothing: in the log of a run, no event is about an order other than 0 that is not indexed. |
| `EventAnswers.AcceptsExactly` | src/core/matching_engine_event_sourcing.cpp:40-62 | An order without positive price and quantity changes no book and leaves one event, of its rejection; any other leaves its placed event next, with its own terms, the next number and the time of that number. |
| `EventAnswers.TradesLogged` | src/core/matching_engine_event_sourcing.cpp:295-313 | Every trade of a session is in its log: a matched event under its number that names taker and maker the right way round, and behind it an executed event with the whole trade. |
| `EventAnswers.QueryTells` | src/core/event_sourcing.cpp:309-347 | On the log of any session, the query for an order gives its placed event and the matched event of every trade it was in, on either side, in order, and nothing about others only. |
| `EventAnswers.TradeAnswered` | src/core/event_sourcing.cpp:309-347 | So each trade of a session is in the answers for its buyer and for its seller, with its price and quantity. |
| `EventAnswers.CountersTell` | src/core/matching_engine_event_sourcing.cpp:190-238 | Over any session the trade count and the volume are those of the trades made. |
| `EventTrees.SessionStands` | src/core/matching_engine_event_sourcing.cpp:40-275 | Below 2^500 requests both trees go through with every session: nobody leaves but from the front, nobody enters behind someone stamped later, and the queues are the session's. |
| `EventTrees.TreesOfSession` | src/core/matching_engine_event_sourcing.cpp:40-275 | So two trees that take the steps of a session end with its books, each price's list the walk restricted to the price. |
| `EnginesAgree.StreamAgrees` | src/core/matching_engine_event_sourcing.cpp:40-275 | On any stream of new LIMIT orders, the classic engine under any clock and the event-sourced one end with the same books and the same trades, up to statuses, numbers and times. |
| `DeterministicCalculator.SortKeyIsPriority` | src/core/deterministic_calculator.cpp:151-175 | On prices that are not negative, comparing packed keys is comparing places in the book: better price, then earlier stamp. |
| `DeterministicCalculator.NegativeAskSortsLast` | src/core/deterministic_calculator.cpp:151-169 | A negative ask price is better than any other and sorts behind all of them. |
| `Masks.MaskIsRemainder` | include/core/lockfree_queue.h:40 | Masking with a power of two less one is the remainder. |
| `Masks.PowerTest` | include/core/lockfree_queue.h:21 | The test for a power of two is exact. |
| `Masks.RoundUp` | include/core/lockfree_queue.h:18-27 | The capacity is the least power of two that is large enough, and the requested one when that is a power of two. |
| `SpscQueue.StepHolds` | include/core/lockfree_queue.h:38-63 | Every atomic step of producer and consumer keeps the ring's invariant, with reads of the other index as stale as they may be. |
| `SpscQueue.RingIsFifo` | include/core/lockfree_queue.h:38-63 | In every interleaving what was popped and what the ring holds are, in order, what was pushed, and the ring holds less than its capacity. |
| `SpscQueue.NewRingIsFifo` | include/core/lockfree_queue.h:18-63 | So it is from a ring as constructed. |
| `SpscQueue.StepIsFifo` | include/core/lockfree_queue.h:38-63 | Only the two publishing steps change what is held, one at the back, the other at the front, where it takes the item it read. |
| `SpscQueue.NoUnreadSlotOverwritten` | include/core/lockfree_queue.h:47 | The slot about to be written holds no item still to be popped. |
| `SpscQueue.CheckSpaceTells` | include/core/lockfree_queue.h:43-45 | A push is refused exactly when the ring held capacity less one items as of the index it saw. |
| `SpscQueue.CheckItemTells` | include/core/lockfree_queue.h:56-58 | A pop finds nothing exactly when all that was pushed, as of the index it saw, is popped. |
| `SpscQueue.SizeExact` | include/core/lockfree_queue.h:70-74 | With both indexes read at one moment, the wrapped and masked difference is the number of items held. |
| `MpmcQueue.StepHolds` | include/core/lockfree_queue.h:111-142 | Every step of any number of producers and consumers keeps the queue's invariant. |
| `MpmcQueue.NothingLost` | include/core/lockfree_queue.h:111-142 | So does every interleaving. |
| `MpmcQueue.EachItemOnce` | include/core/lockfree_queue.h:111-142 | By that invariant a pushed item went through its slot once, and either one pop took it and no other, or it is in the slot. |
| `MpmcQueue.FifoWhenSolo` | include/core/lockfree_queue.h:111-142 | As long as no two waiting tickets share a slot, pop ticket t gets the item of push ticket t. |
| `MpmcQueue.NewQueueKeepsAll` | include/core/lockfree_queue.h:88-142 | From a queue as constructed, whatever the threads do, an item pushed went through its slot and was popped there or is there. |
| `MpmcQueue.NewQueueFifo` | include/core/lockfree_queue.h:88-142 | And items are handed over in the order of the tickets as long as no two waiting tickets share a slot. |
| `MpmcQueue.SharedSlotSwaps` | include/core/lockfree_queue.h:117-123 | From any state so far in order, once two pushes wait for one slot, some continuation gives a pop ticket another ticket's item. |
| `Persistence.StepHolds` | src/core/persistence_optimized.cpp:208-294 | Every step of producers, shutdown and writer keeps the pipeline's invariant. |
| `Persistence.LogsExactly` | src/core/persistence_optimized.cpp:87-112 | An entry is dropped, and counted, if and only if its queue is full. |
| `Persistence.DrainsExactly` | src/core/persistence_optimized.cpp:208-242 | The drain takes from the front of the queue, and goes on until that is empty or the buffer full. |
| `Persistence.WritesExactly` | src/core/persistence_optimized.cpp:243-260 | The writer writes if and only if it found entries and the interval has passed or a buffer is full. |
| `Persistence.RotatesExactly` | src/core/persistence_optimized.cpp:296-371 | Over every run each finished file holds 104857600 bytes or more, and the size kept is that of the open file. |
| `Persistence.PipelineConserves` | src/core/persistence_optimized.cpp:87-371 | In every interleaving the files, the buffer and the queue of each kind are, in order, the entries accepted, rotation included, and no buffer outgrows its size. |
| `Persistence.ExitedWriterWroteAll` | src/core/persistence_optimized.cpp:208-294 | When the writer has exited, what is missing from the files of a kind is exactly what was accepted after its last look at that queue; so nothing is if and only if nothing was, as when nothing was accepted after shutdown was asked for. |
| `Persistence.LateEntryLost` | src/core/persistence_optimized.cpp:87-112 | An entry accepted after that can be lost: a run ends with the writer gone and the entry in the queue. |
| `GroupCommit.StepHolds` | src/core/matching_engine_production_v3.cpp:47-130 | Every step of order threads and flush worker keeps the invariant, a failed sync included. |
| `GroupCommit.CollectsExactly` | src/core/matching_engine_production_v3.cpp:80-148 | The worker takes the whole batch if and only if it holds a hundred entries or its first has waited more than ten milliseconds. |
| `GroupCommit.WorkerTells` | src/core/matching_engine_production_v3.cpp:80-130 | What was collected is let go, synced or not; only a sync moves the committed timestamp, to that of the last entry collected. |
| `GroupCommit.CommittedIsDurable` | src/core/matching_engine_production_v3.cpp:80-130 | In every interleaving each order stamped before the committed timestamp is in the synced part of the log, and each stamped no later is if no two share a stamp; orders are never reordered or lost. |
| `GroupCommit.NewLogIsDurable` | src/core/matching_engine_production_v3.cpp:47-130 | From a log just opened: each order stamped before the committed timestamp is in the synced part of the log. |
| `GroupCommit.SharedStampNotDurable` | src/core/matching_engine_production_v3.cpp:80-130 | When the clock has not moved since a full batch was joined, a run exists in which an order with the committed timestamp is not on disk. |
| `GroupCommit.NewLogNotDurable` | src/core/matching_engine_production_v3.cpp:47-130 | Such a run from a log just opened: a hundred orders and one more at one clock reading. |
| `Base64.EncodedLength` | src/core/auth_manager.cpp:17-32 | The encoding has the padded length of section 4 of RFC 4648. |
| `Base64.EmittedIsEncode` | src/core/auth_manager.cpp:17-32 | What the bit loop puts out, with its tail, is the encoding of RFC 4648, three bytes to four characters. |
| `Base64.Base64Encode` | src/core/auth_manager.cpp:17-32 | The loop over a 32-bit accumulator that overflows computes that encoding. |
| `Base64.Base64Decode` | src/core/auth_manager.cpp:34-50 | The loop computes `Decode` on any text: it stops at the first `=` and passes over characters that are no digits. |
| `Base64.DecodeEncode` | src/core/auth_manager.cpp:17-50 | Decoding undoes encoding on every byte string. |
| `Base64.AlphabetTells` | src/core/auth_manager.cpp:12-32 | The sixty-four characters are the alphabet of table 1 of RFC 4648, in its order. |
| `Base64.KnownAnswers` | src/core/auth_manager.cpp:17-32 | The test vectors of section 10 of RFC 4648. |
| `Base64.ForeignIgnored` | src/core/auth_manager.cpp:34-50 | On any text the decoder passes over characters outside the alphabet wherever they stand, and reads nothing from the first `=` on. |
| `Token.TokenRoundTrip` | src/core/auth_manager.cpp:55-124 | A generated token is verified and gives back its claims if and only if the name holds no bar, the numbers are machine words and the token has not expired. |
| `Token.TokenText` | src/core/auth_manager.cpp:55-74 | A token spelt out: header, claims with bars between them, and the signature over both, each encoded. |
| `Token.VerifiedTells` | src/core/auth_manager.cpp:76-130 | A token is verified if and only if it has three parts, the third of them the signature over the first two, and the second holds readable claims that have not expired; the payload is those claims. |
| `Token.ClaimsBack` | src/core/auth_manager.cpp:55-124 | Claims are read back if and only if the name holds no bar and the numbers are machine words. |
| `Token.OtherSignatureRefused` | src/core/auth_manager.cpp:89-101 | The same token with any other signature is refused. |
| `Token.VerifyToken` | src/core/auth_manager.cpp:76-124 | The verdict on any token, malformed ones, those that raise and ids that wrap included. |
| `Token.SplitParts` | src/core/auth_manager.cpp:77-83 | The parts of a token between its dots. |
| `Positions.Position.UpdatePosition` | src/core/position.cpp:8-64 | The whole state after opening, reducing, flipping and closing is `Updated`; what that is, the next four rows say. |
| `Positions.ClosingTells` | src/core/position.cpp:51-59 | A closing SELL takes the smaller of its size and the long leg from the long leg, a closing BUY the same from the short leg; the other leg and the average stay. |
| `Positions.OpeningTells` | src/core/position.cpp:12-50 | An opening adds to the leg of its direction. Against the position it keeps the average unless the position flips, and then sets it to the price; from flat it sets it to the price. |
| `Positions.AlongTells` | src/core/position.cpp:14-50 | Along the position the average becomes the weighted one, rounded towards zero, whatever the signs. |
| `Positions.LegsTell` | src/core/position.cpp:8-64 | Over any run in which no closing exceeds the leg it closes, each leg is what was opened in its direction less what was closed of it. |
| `Positions.AverageWithinOpens` | src/core/position.cpp:8-64 | Over any run the average stays within the prices opened at so far, and the net size is long less short. |
| `Positions.AverageLags` | src/core/position.cpp:18-23 | After n openings one way the average is never above the true one and at most n - 1 ticks below it. |

## Findings

Where a promise of the source is not what its code does, the code is modelled and the exact condition proved.

- **The tree loses its balance.** `fix_delete` is skipped when the hole is the sentinel
  (`src/core/orderbook.cpp:165`), so removing a black order without children from a red-black tree unbalances
  it: `RedBlack.CutRedBlack` has the exact condition, `MarketTreesBreak.BalanceLost` a run.
- **The tree can be destroyed.** In a tree already unbalanced, `fix_delete` can come to the sentinel as a sibling
  and paint it red, and a later removal that meets it then rotates around it, so the tree drops orders the id map
  still has. Sell orders at 40, 30, 20, 10; cancel 30; 80, 70, 60; cancel 40 and 70; 90; cancel 60; cancel 80:
  `MarketTreesBreak.ScriptBreaks`. `MarketSteps.Stands` is the exact condition on a run; without cancellations it always holds
  (`MarketFronts.PlacementsStand`).
- **The event log is unreadable.** `serialize` streams `uint8_t` codes, which print as characters, and `deserialize`
  reads numbers: `Events.RawNeverRead`. What is proved of log, store and audit above is about the form with codes as
  numbers, which the reader expects.
- **Priority and lists part ways** when an order comes with an earlier timestamp than one at its price: the tree
  puts it ahead, the list behind (`BookViews.FifoExactlyWhenNotEarlier`).
- **Level totals do not follow trades.** `execute_trade` does not tell the level, so its total keeps what was traded,
  and a level can stay with no orders and a positive total (`MarketLevels.EmptyLevelStays`).
- **A one-shot order is never left cancelled**: the status set in the loop is overwritten after it
  (`MarketBook.OneShotStatus`).
- **An order can rest crossed** when more than 10000 orders are in its reach and the first 10000 do not fill it
  (`MarketBook.ProcessUncrossed`); `MarketCrosses.SweepCrosses` is the shortest kind of run.
- **Cancellations of the event-sourced engine do nothing**, because it never fills the order map they are looked up in
  (`src/core/matching_engine_event_sourcing.cpp:90-94`); `EventRuns.SessionStep` says so.
- **Tickets of the many-to-many queue can swap** once two pushes wait for one slot (`MpmcQueue.SharedSlotSwaps`).
- **An entry logged during shutdown can be lost**: exactly when it is accepted after the writer's last look at its queue
  (`Persistence.ExitedWriterWroteAll`, `Persistence.LateEntryLost`).
- **An order with the committed timestamp can be off disk** when two orders share a stamp
  (`GroupCommit.NewLogNotDurable`).
- **A name with a bar spoils its token** (`Token.ClaimsBack`), and **a negative ask price sorts last**
  (`DeterministicCalculator.NegativeAskSortsLast`).
- **A rejection reason with a line break is cut at it** when the log is read (`Events.ReadsBack`).
- **A torn last record comes back as a blank event** (`EventLog.TornTail`).

## Left out

- OrderBook.OrderBookSide.Remove: promises nothing once the fix-up would rotate around the sentinel; the source goes on with a damaged tree, which is no longer a tree the model could describe.
- OrderBook.OrderBookSide.Insert: an order whose id is in the id map already, or that has nothing remaining while its quantity is positive, is not covered; the engine looks the id up first and never inserts an order with nothing remaining.
- BookRuns.RunSide: an order is not told to have nothing remaining where nothing was traded, as `OrderBook.OrderBookSide.UpdateQuantity` says the side is then not sound.
- MarketTrees.TreesOfRun: the trees take the steps the run makes on the queues; the engine classes themselves are written over the queue, so tree and engine are joined by these steps and not in one heap.
- BookSides.BookSide.Insert: that the adaptive radix tree book of the third engine meets this contract is taken for granted; the radix tree, its node layer and its vector instructions are not modelled.
- SimdEngine.ArtSimdEngine.MatchOrderArtSimd: the two mirrored branches of the source are one loop here, and the calling function that queues what is left is not modelled.
- Engine.MatchingEngine.ProcessOrder: covers an order object that is in no queue and, if its id rests on its side, rests there by the order map; a null order, callbacks and the mutex are not modelled.
- EventEngine.EventSourcedEngine.ProcessOrderEs: an order whose id already rests on its side is not covered; the source inserts it and overwrites the id map.
- EventEngine.EventSourcedEngine.ReplayEvents: a log that places one id twice is not covered, nor one with a placed event whose side or type is no member of its enumeration; the log does not change while it is replayed, emission is off and the engine starts idle; the source leaves both to its caller, and its snapshot functions are stubs.
- EventEngine.EventSourcedEngine.MatchOrderDeterministic: the log is the value that `EventLog.EventStore.AppendEvent` keeps, not a store object; deterministic mode is on.
- Events.ReadsBack: about codes printed as numbers, which is not what the source prints; see Findings.
- Events.RoundTrip: the same, and so for all that is said of the log file.
- EventLog.EventStore.GetOrderEvents: locks, flushing, the query by instrument and the hash of an event are not modelled.
- SpscQueue.RingIsFifo: weak memory beyond stale reads of the other thread's index, and a capacity of zero, are not modelled.
- MpmcQueue.NothingLost: spurious failures of the compare-and-swap only repeat a wait and are not steps; counters do not wrap at 64 bits.
- Persistence.PipelineConserves: each queue has one producer, as its ring needs, though the source lets any thread log; record formats, statistics, `flush()` and failing writes are not modelled.
- GroupCommit.CommittedIsDurable: the clock is taken never to run backwards under the batch lock; a failing append and the recovery functions, which are stubs, are not modelled.
- Token.VerifyToken: the keyed hash is any function that gives some bytes.
- Positions.Position.UpdatePosition: 64-bit overflow of the cost and the profit, margin and liquidation formulas are not modelled.
- Matching.MatchIsGreedy: quantities and prices are unbounded integers; integer widths are modelled only in base64, sort keys, the queue's size and the numbers of tokens and log records.
- Lifetimes of order objects, prefetching, `best_quantity`, spread, mid price and `can_match` of the book: nothing beyond what is proved.
- The optimized copies of the engine, accounts, risk and funding, the REST and market data services, configuration, logging and metrics: separate programs around the core.
