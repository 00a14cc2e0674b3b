# Verification of the exchange

The exchange matches limit orders in price-time order. It has a fast engine (`OrderBook`: a node pool
with a free stack, doubly linked lists threaded through the pool by index, and two three-level bitmaps
scanned with clz and ctz) and a plain one (`OrderBookLegacy`: sorted maps of lists) that is promised to
behave the same. Around the engine, funds are reserved before an order is queued, a worker serves the
queue, and a second worker settles trades and refunds in batches. A practice game lets a player quote
prices to an automatic interviewer.

How the modules build on each other:

- `Words`, `PriceBitmaps`, `NodePools`, `BookViews`: 64-bit words bit by bit, the bitmap hierarchy, the
  pool with its lists, and the whole in-memory book as one value.
- `PriceTime`, `Levels`, `Depths`: what an exchange means. Each side is one queue in price-time order; an
  incoming order eats the opposite queue from the front. `Levels` ties per-price lists to that queue.
- `CurrentEngine`, `LegacyEngine`: both engines as classes over their mutable structures, proved to do
  exactly what `PriceTime` says.
- `BookLaws`, `Calls`, `Parity`, `Reachable`, `OrderAccounts`: what the exchange guarantees, over every run:
  closed form of a match, priority, an uncrossed book, exact cancels, dead ids, parity of the two
  engines, and an account of every cent of a buy order.
- `Accounts`, `Ledger`, `Pipeline`, `Workers`: the wallets, the value of what is queued, resting or
  pending, and the reserve-match-settle pipeline as a transition system with freely interleaved steps.
- `Services`: whatever the threads do in between, that pipeline serves requests in the order they were taken,
  and never splits what a trade emits over two batches.
- `SpscQueues`: the lock-free ring buffer, as an object and as a protocol with stale reads.
- `Judges`, `HintLists`, `Games`, `GameManagers`: the interviewer, the stored list of hints, the game's
  meaning, and the manager over its two tables.

Where the model's form differs from the code's:

- The code has every list and bitmap routine twice, for bids and for asks. The arrays of one side are
  grouped in `BookSide`, the six bitmap fields in two `PriceBitmap` objects, and a routine whose two
  copies differ only in the side is written once with the side as a parameter. The two scan directions
  and the two matching loops are kept apart. Some loop bodies are methods of their own.
- The trade listener is the list `trades` of an engine. `qs` and `lv` record, per price, which slots and
  orders a list stands for, and `listed` whether a node is on a list; no result depends on them.
- `std::map` is a sequence of levels sorted by price, and a stored list iterator is the order's position
  by id. `std::vector` used as a stack is a sequence.
- The engine worker serves a task in one step, since no other thread of the transition system looks into
  the book, and then pushes what it emits piece by piece, each under one hold of the queue's mutex.
- Words of the bitmaps are bit vectors; prices, quantities and totals are 32-bit with explicit
  wrap-around; money is an unbounded integer.

Four results describe where the code falls short of what its callers may expect; the code is modelled
as it is.

- Idle slots of the pool are marked with id 0, and an order that leaves its slot leaves its owner, price and
  remaining quantity behind. Whoever had the last order in slot 0 and cancels id 0 while the slot is idle
  passes the guard again. `CancelOrder` states what happens to every part of the book then; the slot is free
  twice, and the book is well formed exactly if this does not happen. `CancelTwice` shows the second answer
  on any book. In money: `CancelServed` says that such a step changes the total by exactly what was left in
  the slot, `HitPaysAgain` that this is exactly what cancelling the order returned before, and
  `DoubleRefund` is a run of a registered user who gains by it. A hit is not harmless when nothing was left:
  after the three calls of `WorthlessHit` the next three orders get slots 0, 1 and 0, and `SlotOverwritten`
  says that the first of them is then nowhere in the pool. Results over runs therefore end with the first
  hit, whatever its value, and hold while no served cancel hits an idle slot; `NamedNeverHits` says that
  runs without a cancel of id 0 are of this kind.
- The order path does not check the company, and the engine worker drops the task of an unlisted one
  together with its reservation. `ExactConservation` says that the total then differs by exactly what was
  reserved for unlisted companies, and `UnlistedCompanyLoses` is a run that loses money.
- The sequence number of an order is shifted out of its id beyond 32 bits. The engine works on, but ids come
  back: `RestsAgain` says exactly when a dead id rests again, and `SameIdAgain` that 2^32 orders later the
  same slot gives the same id.
- The comment in the judge says that noise flips the outcome of a quote sitting on the boundary; the
  code applies the coin to the whole band, so it also turns profitable trades into passes, and its
  last branch inside the band is never taken (`CoinDecides`).

## Model

| member | source | states |
|---|---|---|
| Words.Clz | include/OrderBook.h:334-337 | on a nonzero word, counting leading zeros finds the highest set bit; it is never asked about a zero word |
| Words.Ctz | include/OrderBook.h:345-348 | on a nonzero word, counting trailing zeros finds the lowest set bit |
| Words.WordExtensional | include/OrderBook.h:258-264 | two words with the same 64 bits are equal |
| PriceBitmaps.PriceBitmap.SetBit | include/OrderBook.h:266-290 | marking a price adds exactly it to the occupied prices and keeps all three levels consistent |
| PriceBitmaps.PriceBitmap.ClearBit | include/OrderBook.h:292-328 | unmarking removes exactly that price; upper bits go out exactly when the word below became zero |
| PriceBitmaps.PriceBitmap.Highest | include/OrderBook.h:330-339 | the greatest occupied price, or none if and only if nothing is occupied |
| PriceBitmaps.PriceBitmap.Lowest | include/OrderBook.h:341-350 | the least occupied price, or none if and only if nothing is occupied |
| PriceBitmaps.BitmapDetermined | include/OrderBook.h:266-328 | the words of all three levels are a function of the set of occupied prices |
| PriceBitmaps.BestPath | include/OrderBook.h:330-350 | the first bits of the three levels lead to an occupied price through nonzero words |
| PriceBitmaps.NoneBetter | include/OrderBook.h:330-350 | no occupied price is better than the one found |
| PriceBitmaps.VacantPrices | include/OrderBook.h:150-208 | a stretch of unset bits at any level means a stretch of unoccupied prices, so scans skip nothing |
| Orders.PackRoundTrip | include/OrderBook.h:69-69 | a packed id gives back its slot and the lower half of its sequence number, and is 0 exactly if both are |
| Orders.PackedWord | include/OrderBook.h:69-108 | shift, or and mask on 64-bit words are that packing, for every sequence number |
| NodePools.AppendLinked | include/OrderBook.h:353-377 | linking a node behind the tail extends the list's order at its end, all links mutual |
| NodePools.Pigeonhole | include/OrderBook.h:252-256 | a list without repetition is no longer than the pool |
| BookViews.AppendKeepsGood | include/OrderBook.h:353-404 | adding an order keeps pool, lists, totals and free stack in agreement |
| BookViews.ReduceKeepsGood | include/OrderBook.h:429-446 | so does a partial fill of a level's head |
| BookViews.UnlinkKeepsGood | include/OrderBook.h:118-146 | so does taking any node, wherever it is, out of its list and freeing its slot |
| BookViews.PoolPartition | include/OrderBook.h:252-256 | every slot is at exactly one place: one free-stack entry, in the hand of the order being processed, or one position of one list |
| BookViews.CancelHits | include/OrderBook.h:106-148 | the id and owner found in a slot identify the resting order, and unlinking it is cancelling it on the exchange |
| BookViews.CancelMisses | include/OrderBook.h:106-115 | when the guard fails, no resting order has that id and owner |
| BookViews.DoubleFree | include/OrderBook.h:113-146 | a slot pushed while already free breaks the partition |
| NodePools.SlotOverwritten | include/OrderBook.h:353-377 | of three orders stored in slots 0, 1 and 0 the first is nowhere in the pool afterwards, whatever lists they join |
| Levels.AppendIsInsert | include/OrderBook.h:353-404 | joining the tail of the own price level is joining the price-time queue behind equal prices |
| Levels.FillStep | include/OrderBook.h:407-469 | one fill against the head of the best level is one step of the exchange |
| Levels.SelfTradeStops | include/OrderBook.h:420-428 | reaching an own order rejects all that is left and leaves the queue alone |
| CurrentEngine.OrderBook.constructor | include/OrderBook.h:37-46 | the empty book: every slot free, all lists and bitmaps empty |
| CurrentEngine.OrderBook.FillHead | include/OrderBook.h:429-461 | one iteration of the inner loop: a trade of the smaller quantity at the resting price, with each order's own id and owner on its own side and the buyer's limit; the head reduced or removed and its slot freed |
| CurrentEngine.OrderBook.SweepLevel | include/OrderBook.h:416-462 | the inner loop over one level continues the exchange's match, with the same trades and freed slots |
| CurrentEngine.OrderBook.MatchBuy | include/OrderBook.h:407-469 | trades, rejection, remainder, remaining asks and freed slots of a buy are those of the exchange; the bitmap is right on every return path |
| CurrentEngine.OrderBook.MatchSell | include/OrderBook.h:472-535 | the same for a sell |
| CurrentEngine.OrderBook.AddOrder | include/OrderBook.h:353-404 | the remainder joins its side's queue in price-time order and takes the slot its id names |
| CurrentEngine.OrderBook.ProcessBuyOrder | include/OrderBook.h:64-79 | processing a buy is accepting it on the exchange, for every sequence number: same book, trades, rejected quantity, id, free stack and contents of slot 0 |
| CurrentEngine.OrderBook.ProcessSellOrder | include/OrderBook.h:89-104 | the same for a sell |
| CurrentEngine.OrderBook.CancelOrder | include/OrderBook.h:106-148 | the answer is what the slot stored, exactly if id and owner match; pool, lists, bitmap and free stack after it are stated in every case. The book stays well formed, and is that of the exchange's cancel, if and only if the request does not hit an idle slot 0 |
| CurrentEngine.CancelTwice | include/OrderBook.h:113-147 | on any book, cancelling one's order in slot 0 and then id 0 returns the same order with the same quantity twice and leaves the slot on the free stack twice |
| CurrentEngine.SlotZeroStored | include/OrderBook.h:252-253 | slot 0 stores the resting order whose slot it is, or else what the last one left |
| CurrentEngine.OrderBook.BestBid | include/OrderBook.h:229-229 | the price at the front of the bid queue |
| CurrentEngine.OrderBook.BestAsk | include/OrderBook.h:230-230 | the price at the front of the ask queue |
| CurrentEngine.OrderBook.Depth | include/OrderBook.h:150-208 | the three nested bit scans give exactly the first levels of the queue, best first, with count and total |
| CurrentEngine.OrderBook.BidDepth | include/OrderBook.h:150-178 | for bids |
| CurrentEngine.OrderBook.AskDepth | include/OrderBook.h:180-208 | for asks |
| PriceTime.DepthFront | include/OrderBook.h:150-208 | the first level shown is the front run of equal prices with its price, total quantity and number of orders, and the rest is what is shown of the rest |
| CurrentEngine.OrderBook.BidOrders | include/OrderBook.h:210-227 | the first orders of the queue in price-time order, as many as asked for or all, each with its own id, user, timestamp, price and quantity; although only as many levels are looked at |
| CurrentEngine.OrderBook.AskOrders | include/OrderBook.h:232-249 | for asks |
| LegacyEngine.JoinedIsInsert | include/OrderBookLegacy.h:100-108 | adding to the map's list at its price is joining the price-time queue |
| LegacyEngine.FollowLocation | include/OrderBookLegacy.h:49-67 | a stored location leads to the level that holds the order with that id, and erasing it there removes it from the queue |
| LegacyEngine.ErasedKeeps | include/OrderBookLegacy.h:110-121 | erasing keeps the keys sorted, totals right and no level empty |
| LegacyEngine.OrderBookLegacy.MatchBuy | include/OrderBookLegacy.h:152-201 | the plain engine's match of a buy is that of the exchange |
| LegacyEngine.OrderBookLegacy.MatchSell | include/OrderBookLegacy.h:203-252 | and of a sell |
| LegacyEngine.OrderBookLegacy.ProcessBuyOrder | include/OrderBookLegacy.h:25-35 | processing a buy is accepting it on the exchange, with ids counted from 1 |
| LegacyEngine.OrderBookLegacy.ProcessSellOrder | include/OrderBookLegacy.h:37-47 | and a sell |
| LegacyEngine.OrderBookLegacy.CancelOrder | include/OrderBookLegacy.h:49-67 | cancelling is that of the exchange |
| LegacyEngine.OrderBookLegacy.BidDepth | include/OrderBookLegacy.h:123-134 | the first levels of the queue |
| LegacyEngine.OrderBookLegacy.BidOrders | include/OrderBookLegacy.h:136-150 | the first orders of the queue, as many as asked for or all, each with its own id, user, timestamp, price and quantity |
| BookLaws.MatchClosedForm | include/OrderBook.h:407-535 | filled is the minimum of the incoming quantity and what is available before the first own order within the limit; the rest is all rejected if an own order was reached and otherwise all rests |
| BookLaws.MatchConserves | include/OrderBook.h:64-104 | quantity is traded, rejected or left over, and never both rejected and left over |
| BookLaws.MatchFromFront | include/OrderBook.h:407-535 | trades take the front of the queue in order, each fully but the last, at most one trade more than orders removed; each trade has the incoming order's id and owner on its own side, the resting one's on the other, the resting price, the buyer's limit and the incoming order's company |
| BookLaws.ServedInPriority | include/OrderBook.h:407-535 | trade prices within a match never get better, ties go by age, and whoever traded had priority over everybody who still rests |
| BookLaws.MatchStops | include/OrderBook.h:407-535 | when a match leaves something over, nothing that remains crosses it |
| BookLaws.ProcessKeepsValid | include/OrderBook.h:64-104 | processing keeps both queues in price-time order, sequence numbers increasing, quantities positive and the book uncrossed |
| BookLaws.CancelKeepsValid | include/OrderBook.h:106-148 | so does cancelling |
| BookLaws.CancelExact | include/OrderBook.h:106-148 | a cancel succeeds if and only if that order rests and is the caller's, and then removes just it and returns it as it rested |
| Parity.StepSimulated | include/OrderBookLegacy.h:11-14 | one operation on related engines gives related engines and the same answer up to ids |
| Parity.EnginesAgree | include/OrderBookLegacy.h:11-14 | over every run both engines give the same trades, rejections, cancel results, best prices, depth and order snapshots, ids related by dropping the slot |
| Parity.DepthErased | include/OrderBook.h:150-208 | what depth shows does not depend on ids |
| Calls.StepSlots | include/OrderBook.h:64-148 | no order, whether accepted or refused, and no cancel of any id loses or doubles a slot, but for the hit on idle slot 0, which doubles it |
| Calls.AcceptShows | include/OrderBook.h:64-104 | an accepted order is numbered one up, gets the top free slot in its id, trades under that id with the front of the other side, and frees the slots of those it used up in that order, its own last if nothing of it rests |
| Calls.RunKeepsOk | include/OrderBook.h:64-148 | any calls without such a hit keep both queues in order, the book uncrossed, each slot exactly once, and slot 0's contents those of its order, for 2^32 calls |
| Calls.PlacedInZero | include/OrderBook.h:64-104 | what slot 0 stores after an order: the new one, what is left of its old one, or unchanged remains |
| Calls.CancelledInZero | include/OrderBook.h:106-148 | what slot 0 stores after a cancel |
| Calls.WorthlessHit | include/OrderBook.h:113-147 | three calls on a new book after which a hit that refunds nothing leaves the free stack ending in 0, 1, 0 |
| Reachable.ReachableBook | include/OrderBook.h:353-535 | after any orders and cancels of any ids without such a hit each queue is in strict price-time order despite recycled slots, the book is not crossed, each slot is used exactly once, and the free stack is empty exactly when the pool is full of resting orders |
| Reachable.ReachablePriority | include/OrderBook.h:64-104 | so whatever arrives then trades in strict price-time order |
| Reachable.RestsAgain | include/OrderBook.h:64-148 | an id that does not rest rests after a call if and only if the call is an order that is given this id, meets no own order in its limit, and finds less than it asks for |
| Reachable.DeadForever | include/OrderBook.h:106-148 | along any calls without a hit, an id that does not rest and is not given out again never rests, and cancelling it fails and changes nothing if and only if it does not hit an idle slot |
| Reachable.NotReissuedSoon | include/OrderBook.h:69-69 | an id given out before is not given out again within 2^32 orders |
| Reachable.RunScript | tests/test_orderbook_legacy_parity.cpp:66-80 | the two engine objects driven by any accepted script end with the trades that the run answers, the same but for ids, and with the same depth |
| OrderAccounts.MatchSpends | include/OrderBook.h:431-446 | per order id, what was reserved is paid, given back as price improvement, rejected or still reserved |
| OrderAccounts.RunPays | include/Server.h:922-986 | along any calls without a hit and for every id: reserved before plus brought in equals paid out plus reserved after |
| OrderAccounts.EveryCentAccounted | include/Server.h:922-986 | at every point after any accepted buy order, whatever is placed, refused or cancelled short of a hit: limit price times original quantity equals payments to sellers, price improvements, reject and cancel refunds, and what it still reserves |
| OrderAccounts.HitPaysAgain | include/OrderBook.h:113-147 | the first hit on slot 0 pays the order's owner exactly what cancelling it had returned, if it was the last one in the slot, and nothing on its account otherwise |
| Accounts.Database.ReserveCash | include/Database.h:144-167 | succeeds exactly if the balance covers the amount, takes just it from just that user, and overdraws nobody |
| Accounts.Database.ReserveShares | include/Database.h:169-194 | succeeds exactly if the holding covers the quantity, and takes just it from just that holding |
| Accounts.Database.SettleTradeUnlocked | include/Database.h:235-264 | for every user: price to the seller, the improvement over the limit and the shares to the buyer, and every other holding unchanged |
| Accounts.Database.ApplyBatch | include/Server.h:1063-1098 | the batch loop applies every task once, in order, adds the batch's log entries to the trade log in order, and overdraws nobody |
| Accounts.ApplyKeepsSolvent | include/Database.h:235-264 | no settlement or refund makes a holding negative |
| Ledger.MatchWithinLimit | include/OrderBook.h:431-443 | every trade's price is within the buyer's limit |
| Ledger.MatchValue | include/OrderBook.h:407-535 | matching conserves the reserved value of any group of users in any asset |
| Ledger.TradeTasksValue | include/Server.h:855-874 | the tasks emitted for trades carry what the trades used up plus what they move |
| Ledger.TasksPerTrade | include/Server.h:855-874 | the tasks 2i and 2i + 1 are the settlement and the log entry of trade i, field by field |
| Ledger.TradesLogged | include/Server.h:1091-1094 | applied, they add one row per trade to the trade log, in order, with the trade's company, buyer, seller, price and quantity |
| Ledger.ServeEmits | include/Server.h:922-986 | in every case: two tasks per trade and a refund of what was rejected, the refund of a refused order, that of a cancelled one, or nothing; each refund names the owner, quantity and price or company |
| Ledger.ServeValue | include/Server.h:918-986 | serving an order or any cancel turns its value and the book's, plus what a hit on idle slot 0 conjures up, into the new book's and the emitted tasks' |
| Ledger.RefusedRefunded | include/Server.h:924-932 | an order that cannot be processed is refunded with its whole reservation and changes no book |
| Pipeline.CancelServed | include/Server.h:967-986 | a served cancel changes the total of any users by exactly what was left in the idle slot 0 it hits, so it keeps the total if and only if it hits none or nothing of value to them was left |
| Pipeline.StepBalance | include/Server.h:724-986 | every step of the I/O thread, the engine worker and the database worker keeps the balance of any group of users, but for the value of such a hit |
| Pipeline.RunAccounts | include/Server.h:724-1098 | after any interleaving a group's total is its initial wallets plus what trades moved to it, less what was dropped, plus the value of a hit that ended the run |
| Pipeline.OverOnlyByHit | include/Server.h:967-986 | a run goes on exactly as long as no served cancel hits an idle slot, and nothing is conjured up until then |
| Pipeline.Conservation | include/Server.h:894-986 | over all users the total of cash and of each company's shares is constant but for dropped tasks and, if a hit ended the run, its value; no wallet is ever overdrawn |
| Pipeline.ExactConservation | include/Server.h:918-920 | while no served cancel hits an idle slot and once all requests are served, the total differs by exactly what was reserved for unlisted companies, so it is unchanged if and only if that is nothing |
| Pipeline.ListedConservation | include/Server.h:918-920 | while no served cancel hits an idle slot, and if every submission names a listed company, the total never changes |
| Pipeline.NamedNeverHits | include/Server.h:967-986 | if no cancel names id 0, none hits |
| Pipeline.PlainConservation | include/Server.h:724-1098 | if every submission names a listed company and no cancel names id 0 the total never changes |
| Pipeline.UnlistedCompanyLoses | include/Server.h:918-920 | a run on an exchange with a listed company in which an order for another id loses its reservation |
| Pipeline.DoubleRefund | include/Server.h:967-986 | a run in which a registered user with 10 cents cancels his order in slot 0, then id 0, and ends with 15 |
| Pipeline.StepKeepsBuffered | include/Server.h:1038-1107 | every step keeps: emitted tasks are the settled batches, then the swapped one, then the front buffer |
| Pipeline.DoubleBuffering | include/Server.h:1038-1107 | from the start and for all swap points, settled tasks are in order and once each a prefix of the emitted, the back buffer is empty at every swap, and whenever the mutex is free the wallets show whole batches only |
| Services.ServedInOrder | include/Server.h:894-986 | for every interleaving the requests taken are, in order, those served, those queued and the one in hand; books, trades, drops and emitted tasks are those of a server without threads that serves the first ones one after the other |
| Services.StepKeepsOrder | include/Server.h:724-986 | every step keeps this |
| Services.BatchesWhole | include/Server.h:855-874 | wherever the buffers are swapped, every batch has each settlement followed at once by its own log entry |
| Workers.SubmitOrder | include/Server.h:693-744 | the reservation of an order on the database object is that of the transition system's submission; a stress order is queued for a negative user without any |
| Workers.ServeOrder | include/Server.h:922-966 | the ORDER branch on the engine object emits the transition system's tasks, starting with a settlement and a log entry of each trade, field by field, and leaves its book |
| Workers.ServeCancel | include/Server.h:967-986 | the CANCEL branch emits the transition system's tasks whatever id is named, and leaves its book well formed exactly if the cancel does not hit an idle slot |
| Workers.RoundRuns | include/Server.h:1043-1107 | one round of the database worker's steps settles the whole front buffer as one batch and empties both buffers |
| Workers.SettlementQueue.SettleRound | include/Server.h:1043-1107 | swapping, applying under the mutex and clearing on the objects is that round, and the trade log grows by the log entries of the batch in order |
| SpscQueues.MaskIsRemainder | include/Server.h:36-47 | if Size & (Size - 1) is 0 then masking by Size - 1 is the remainder by Size |
| SpscQueues.SpscQueue.Push | include/Server.h:42-51 | refuses exactly when Size - 1 items are queued, else appends |
| SpscQueues.SpscQueue.Pop | include/Server.h:52-60 | refuses exactly when empty, else gives the oldest item |
| SpscQueues.LoadHeadConsistent | include/Server.h:42-47 | a producer that acts on any stale head stays safe; it refuses exactly if the queue it sees is full |
| SpscQueues.LoadTailConsistent | include/Server.h:52-56 | a consumer that acts on any stale tail stays safe; it refuses exactly if the queue it sees is empty |
| SpscQueues.StepConsistent | include/Server.h:33-61 | every load, slot access and publication keeps the ring consistent |
| SpscQueues.RunConsistent | include/Server.h:33-61 | so does every interleaving |
| SpscQueues.RunDelivers | include/Server.h:42-51 | over any run, what is published or in hand is what was there before and then the offered items that were not refused, in order |
| SpscQueues.Linearizable | include/Server.h:33-61 | from the empty ring, for every interleaving the items pushed, then the one in hand, are those push was called with and did not refuse, as the steps alone tell; the popped items are a prefix of them, occupancy is below Size, and no unpopped slot is ever overwritten |
| Judges.Deterministic | include/MarketMakerJudge.h:71-79 | outside the noise band the interviewer trades exactly at a strictly positive edge, on the side that has it |
| Judges.CoinDecides | include/MarketMakerJudge.h:53-69 | inside the band the coin alone decides; a trade is on the better side, a BUY at the ask or a SELL at the bid, and the last branch is dead |
| Judges.FillsAtQuote | include/MarketMakerJudge.h:62-79 | a BUY fills at the player's ask and a SELL at the bid |
| Judges.EdgeBound | include/MarketMakerJudge.h:41-80 | the interviewer never loses more than the noise |
| HintLists.StoiToString | include/GameManager.h:225-237 | every int is read back as written |
| HintLists.RoundTrip | include/GameManager.h:217-240 | every list of ints is read back as stored |
| HintLists.HintsToCsv | include/GameManager.h:230-240 | the printing loop writes the list's text, which reads back as the list |
| HintLists.ParseHintsCsv | include/GameManager.h:217-228 | the parsing loop reads what the text lists, or throws as stoi does |
| Games.QuoteMovesScore | include/GameManager.h:81-95 | a quote moves the mark-to-model worth by exactly the interviewer's edge |
| Games.HandleKeeps | include/GameManager.h:43-165 | every request keeps every session's worth equal to its recorded edges and hint costs, its rounds numbered and limited, and at most one active session per user |
| Games.HandleChanges | include/GameManager.h:43-165 | a request touches at most one existing session: active, and the caller's |
| Games.RequestAnswered | include/GameManager.h:70-165 | what a request on an active session does to it alone and says: a quote is refused exactly if crossed, else it is one more round with exact position, cash, rounds remaining and status, which goes on exactly if it is not the last; a hint is refused exactly if none is left, else the text is the scenario's at the number paid for so far; an end reports the session |
| Games.SessionEnds | include/GameManager.h:43-165 | a session goes on exactly unless a forced new start of its user, an uncrossed quote for its last round, or a request to end it comes; none is ever revived |
| Games.EndIsTold | include/GameManager.h:104-165 | the end of a session is told exactly when a request on it ended it, with the truth, position, cash, rounds and reason |
| Games.ResultTold | include/GameManager.h:284-297 | the result told is minus unit size times the interviewer's edges minus the cost of the hints |
| Games.Refusals | include/GameManager.h:70-203 | each error of a request on a session, and exactly when it is given; a refused request changes nothing |
| Games.StartAnswered | include/GameManager.h:43-68 | a start shows the active session unless a new one is forced; else a fresh session on a scenario of the category is appended and shown with the hints paid for, or refused exactly if there is no such scenario |
| Games.AnyScenarioDrawn | include/GameManager.h:175-184 | every scenario of the category comes up for some draw |
| Games.RunKeeps | include/GameManager.h:43-165 | so in every run |
| Games.NeverProfits | include/GameManager.h:284-297 | in every reachable session the player's worth is at most 0 without noise, and at most rounds times noise times unit size with it |
| Games.RunChanges | include/GameManager.h:70-165 | along any run a session's worth never rises without noise, and an ended session never changes |
| GameManagers.GameManager.StartSession | include/GameManager.h:43-68 | on the stored rows, starting or resuming is that of the game, and shows exactly the hints paid for |
| GameManagers.GameManager.RevealedHints | include/GameManager.h:258-265 | the texts read back from a session's stored list are exactly its first k hints |
| GameManagers.GameManager.SubmitQuote | include/GameManager.h:70-130 | a quote on the stored rows is that of the game, which RequestAnswered and SessionEnds describe |
| GameManagers.GameManager.RequestHint | include/GameManager.h:132-155 | the stored text always lists 0 to k - 1; the next hint is revealed and charged once, or refused when none is left |
| GameManagers.GameManager.EndSession | include/GameManager.h:157-165 | ending reports the mark-to-model result |

## Left out

- `SWITCH_ENGINE`, which discards resting orders on purpose, `SNAPSHOT` tasks and `stress` orders, which sit
  outside the wallets.
- CurrentEngine.OrderBook.CancelOrder: what later calls do with a book after a hit on an idle slot is not
  modelled.
- Pipeline.Conservation: a run ends with the first hit on an idle slot; how the exchange goes on from there is
  not modelled. Trades change the owner of value only between registered users; registration and granted
  shares are part of the initial state, and stress orders are not submitted.
- Calls.RunKeepsOk: order and uniqueness of ids are stated for the first 2^32 calls of a book.
- LegacyEngine.FollowLocation: the stored list iterator is looked up by id in its level, so that iterators
  stay valid across other erasures is not modelled.
- Parity.EnginesAgree: holds for runs that the fast engine accepts, of fewer than 2^32 orders and with cancels
  of issued ids: the plain engine has no capacity limit, and its ids say nothing of other ones.
- Pipeline.DoubleBuffering: a failing SQL statement or commit, and the stop flag of the workers, are not
  modelled.
- Accounts.Database.ReserveCash: rows are maps and cents are unbounded, so SQL text, database errors and
  64-bit overflow of balances are not modelled.
- Accounts.Database.ApplyBatch: the time stamp of a trade log row is not modelled.
- SpscQueues.Linearizable: the memory model is stale loads that never go back plus publication in order; torn
  items and destruction of moved-from items are not modelled.
- Workers.SubmitOrder: the market order path is the same with the best price of the other side, read without
  synchronisation, as an arbitrary price below the maximum.
- Games.NeverProfits: prices, cash and positions are exact numbers; rounding of doubles is not modelled, and
  the random draws are arbitrary parameters of the requests.
- GameManagers.GameManager.constructor: the two tables are fields of the manager; the number of hints of a
  scenario is taken to fit in an int.
- Spinning of the I/O thread on a full engine queue: the queue of the transition system is unbounded.
- JSON, WebSocket and HTTP handling, sessions, authentication, broadcasts, metrics, trade history and
  leaderboards, instrument listing, benchmarks and the web client, which carry no matching or accounting
  logic.
