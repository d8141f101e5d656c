# TradeCore verification

A Dafny model of the core of TradeCore, a central limit order book with a
cross-margin risk engine and write-ahead log, snapshot and replay persistence.
The model keeps the program's own form: what the C++ updates in place is a class
with fields, `modifies` clauses and loop invariants; what it computes is a
function. Every mutable object is tied to a simple value, and the promises of
the system are proved about those values over all inputs and all runs.

## How it is built

**Matching engine.** Three layers, each proved to compute the next.
`PriceLevels`, `BookSides`, `MarketShards` and `MatchingEngine` are the live
objects: order records with `prev`/`next`/`level` links, levels with cached
`total_qty` and `visible_qty`, two price-ordered maps, and the `book_orders`
index. `Ladder` is a list of price rows. `OrderBook` is the simple view: two
queues sorted by price and arrival, and a greedy walk. The `Valid()` predicates
are the representation invariant: every level is non-empty and doubly linked in
order, both cached totals are the sums over its orders, every order has
`remaining > 0` and `0 <= display <= remaining`, arrival numbers increase along
each level, and the index holds exactly the linked records. `BookInvariant` and
`BookTheorems` prove what the simple view promises of single calls, `BookAnswers`
what it answers and shows, `BookRuns` and `BookHistories` what it promises of
whole runs. All of it carries over to
the live engine because each public method is proved to return the simple
view's result and leave the simple view's book.

**Risk and the daemon.** `Risk` and `Margin` hold positions, profit and margin
as values (sums over maps come from `MapSums`, so map iteration order cannot
matter); `Verdicts` says what margins, the pre-trade check and liquidation come
to; `RiskEngine` is the object with its accumulating loops. `Daemon` is the
handling of messages by matcher, risk engine and the `resting_orders` map, and
exactly when that map stays true. `DaemonLedger` follows every fill the matcher
makes into the risk engine, `DaemonProfit` bounds the drift of total profit, and
`DaemonAccounts` what every account earns, `DaemonAnswers` what single messages
do, and `DaemonCases` holds the runs that break what fails. `DaemonProcess` is
the configuration and the message handlers over the live objects, `EventLoop`
the drain loops and turns that feed them from the live pipeline; `Journal` is
the log that they write and what replaying it gives.

**SPSC ring.** `SpscRing` is a transition system whose steps are the individual
loads, slot accesses and stores of `push` and `pop`; a load of the other side's
index may return any value since the last one seen. The class `Buffer` runs the
calls in full and follows the transition system step by step.

**Persistence.** `Checksum` (32-bit FNV-1a, section 2 of draft-eastlake-fnv),
`Wal` with the objects in `WalFiles`, `Snapshot`, and `Replay`. A file is its
sequence of bytes.

**Ingress.** `Ingress` is the per-account tumbling window, the three lanes and
the pipeline object, whose lanes are live rings of `SpscRing`; `Intake` follows the frames (`Frames`) from their arrival
to the turn that handles them.

## Results that go against expectation

- A duplicate id is noticed only after matching, so a rejected order can have
  traded. `BookTheorems.RejectionUnchangedIff` says exactly when, in terms of
  the book before the call; `BookTheorems.DuplicateTradesYetRejected` is an
  instance. The daemon drops the fills of such an order:
  `DaemonLedger.LosesFillsIff` is the exact condition, and from a funded start
  `DaemonCases.FundedStartLoses` trades an offer away in three messages while no
  position moves; `DaemonCases.UnfundedStartLoses` does so from the daemon's own
  start.
- A `replace` that is rejected after its lookup has already removed the old
  order. `BookTheorems.ReplaceRejectionExact` says exactly when, in terms of the
  book before the call; `BookTheorems.RejectedReplaceLosesOrder` is an instance.
- The id of a new order keeps only the low 16 bits of the account, so two
  accounts can share an id. When such an order is filled completely while the
  other still rests, the daemon forgets the other's owner, and a later fill
  against it reaches only one account. `Daemon.RunKeepsOwnersIff` says exactly
  which runs keep all owners, `DaemonLedger.RunKeepsNetIff` exactly which runs
  keep every net position. `DaemonCases.SharedIdBreaksZeroSum` reaches a net
  position of 5 in four messages from every state with an empty market whose
  risk checks let them pass, `DaemonCases.FundedStartBreaks` from four funded
  accounts, and `DaemonCases.UnfundedStartBreaks` from the daemon's own start,
  which credits no collateral, at prices not above zero.
- The resume point of a replay is a 32-bit number: after a snapshot numbered
  2^32 - 1 the whole log is applied again (`Replay.ReplayedPart`), and exactly
  then counting the events gives a wrong count (`Replay.WrappedResumeCountsTwice`).
- The rate limiter's limit holds per window, not per second. For every
  configuration and kind twice the limit is the least bound per second
  (`Ingress.LeastBoundPerSecond`, reached by `Ingress.TwiceTheLimit`), so the
  limit itself is one exactly when it is zero (`Ingress.LimitPerSecondIff`).
- `apply_fill` adds realized profit to both `collateral` and `realized_pnl`, and
  the summary adds the two, so a trade creates reported equity: beyond rounding
  it is conserved exactly when the two legs' realized amounts cancel or the
  contract size is zero (`Risk.TradeMovesEquity`, instance
  `Risk.TradeMintsEquity`). Realized plus unrealized profit is conserved.
- The equity that `evaluate_order` projects keeps the old entry price and leaves
  out what a new position earns. `Margin.ProjectedEquityExact` gives the error in
  closed form, and so exactly when the projection is right;
  `Margin.ProjectionFallsShort` is an instance. The projected margins are right.

## Model

| member | source | states |
|---|---|---|
| `Common.DecodeEncode` | apps/tradecored/src/main.cpp:82-88 | decoding an encoded order id gives it back |
| `Common.EncodeDecode` | apps/tradecored/src/main.cpp:82-88 | encoding a decoded 64-bit value gives it back |
| `Common.EncodeInjective` | libs/common/include/tradecore/common/types.hpp:46-50 | different ids have different 64-bit values, so the index and the owner map never confuse two ids |
| `Common.EncodeLayout` | libs/common/include/tradecore/common/types.hpp:46-50 | market, session and local number stand in bits 48-63, 32-47 and 0-31 of the key |
| `PriceLevels.OrderRecord.constructor` | libs/matcher/src/matching_engine.cpp:230-245 | a new record shows nothing, its display size or all of its quantity, by its flags, and is linked nowhere |
| `PriceLevels.OrderRecord.RefreshDisplay` | libs/matcher/include/tradecore/matcher/matching_engine.hpp:121-129 | only the shown quantity changes, to what flags, display size and remaining quantity say |
| `PriceLevels.PriceLevel.LinkLast` | libs/matcher/src/matching_engine.cpp:26-34 | the pointers stay a doubly linked list, of the old nodes followed by the record |
| `PriceLevels.PriceLevel.Unlink` | libs/matcher/src/matching_engine.cpp:42-54 | the pointers stay a doubly linked list, of the old nodes without the record, whose own links are null |
| `PriceLevels.PriceLevel.PushBack` | libs/matcher/src/matching_engine.cpp:25-37 | list, contents and both cached totals agree again, with the record's order at the end |
| `PriceLevels.PriceLevel.Remove` | libs/matcher/src/matching_engine.cpp:39-55 | list, contents and both cached totals agree again, without the record's order |
| `PriceLevels.PriceLevel.UpdateAfterFill` | libs/matcher/src/matching_engine.cpp:57-69 | the totals follow a fill that has already been taken from the record, whatever the display rules do |
| `PriceLevels.PriceLevel.Consume` | libs/matcher/src/matching_engine.cpp:284-310 | the inner loop is the greedy walk over the level's orders, and drops exactly the spent makers from the index |
| `PriceLevels.WalkStep` | libs/matcher/src/matching_engine.cpp:286-310 | one turn of the inner loop leaves the fills so far plus the walk of what is left unchanged |
| `Ladder.WalkAppend` | libs/matcher/src/matching_engine.cpp:276-318 | walking two queues in a row is walking the first, then the second with what is left |
| `Ladder.WalkLadder` | libs/matcher/src/matching_engine.cpp:276-318 | walking the whole ladder is walking its best row and, if that is emptied, the rest |
| `Ladder.InsertInRow` | libs/matcher/src/matching_engine.cpp:327-349 | appending to the row of a price is inserting into the sorted queue behind every order at least as good |
| `Ladder.InsertNewRow` | libs/matcher/src/matching_engine.cpp:327-349 | a new row at the lower bound of its price is that same insertion |
| `Ladder.RemoveFromRow` | libs/matcher/src/matching_engine.cpp:351-377 | taking an order out of its row, or the row with its last order, takes exactly one place out of the sorted queue |
| `Ladder.FlattenInjective` | libs/matcher/src/matching_engine.cpp:327-377 | a sorted queue has only one ladder of levels |
| `Ladder.FillableSplit` | libs/matcher/src/matching_engine.cpp:103-127 | the fillable quantity is a row's total plus that of the rows behind it, while the row is within the limit |
| `BookSides.LowerBound` | libs/matcher/src/matching_engine.cpp:329-329 | where a price stands in the key order: every earlier key is better, the next is not |
| `BookSides.BookSide.Rest` | libs/matcher/src/matching_engine.cpp:327-349 | the side stays well formed and its sorted queue gains the order behind all orders at least as good |
| `BookSides.BookSide.Settle` | libs/matcher/src/matching_engine.cpp:312-316 | an emptied level leaves the map and any other stays, and the side is well formed again |
| `BookSides.BookSide.Locate` | libs/matcher/src/matching_engine.cpp:352-360 | a record of the book has a level, found under its own price, so the early returns are never taken |
| `BookSides.BookSide.LadderTells` | libs/matcher/src/matching_engine.cpp:25-69 | a ladder tells every level of the map: price, records in order, cached totals |
| `BookSides.BookSide.Take` | libs/matcher/src/matching_engine.cpp:351-377 | exactly the record's place leaves the sorted queue, the level with its last order, and the side stays well formed |
| `BookSides.BookSide.Consume` | libs/matcher/src/matching_engine.cpp:276-318 | both loops together are the greedy walk over the side's sorted queue, and the index still lists exactly the linked records |
| `BookSides.BookSide.FillableQuantity` | libs/matcher/src/matching_engine.cpp:103-127 | the early-exit sum of cached totals reaches a quantity exactly when the sorted queue holds that much within the limit |
| `BookSides.BookSide.RecordQueued` | libs/matcher/src/matching_engine.cpp:351-377 | every linked record is in the sorted queue |
| `BookSides.BookSide.QueuedRecord` | libs/matcher/src/matching_engine.cpp:351-377 | every order of the sorted queue is a linked record |
| `BookInvariant.WalkShape` | libs/matcher/src/matching_engine.cpp:275-325 | a walk leaves the queue without a prefix, its new head perhaps worn, and stops with quantity left only at the end or at the limit |
| `BookInvariant.InsertKeeps` | libs/matcher/src/matching_engine.cpp:327-349 | resting a new order keeps strict price-time order and distinct ids |
| `BookInvariant.MatchKeeps` | libs/matcher/src/matching_engine.cpp:275-325 | matching keeps the book invariant |
| `BookInvariant.LeftoverUncrossed` | libs/matcher/src/matching_engine.cpp:275-325 | what is left of a taker crosses no maker that is left |
| `BookInvariant.PlaceKeeps` | libs/matcher/src/matching_engine.cpp:198-273 | every placement keeps the book invariant, whatever its quantity, display size, flags and id, so unvalidated replaces do too |
| `BookInvariant.RemoveIdKeeps` | libs/matcher/src/matching_engine.cpp:351-377 | removal keeps the book invariant and the id is gone |
| `BookInvariant.RemovalById` | libs/matcher/src/matching_engine.cpp:351-377 | in a book with distinct ids, taking out an order's place is taking out its id |
| `MarketShards.MarketShard.IndexTells` | libs/matcher/src/matching_engine.cpp:153-156 | an id is in the index exactly when the book holds it |
| `MarketShards.MarketShard.SameQueuesSameLevels` | libs/matcher/src/matching_engine.cpp:327-377 | whenever a live shard is back at the same queues, as after a rest and its cancel, both ladders, and so all levels, are the same |
| `MarketShards.MarketShard.MatchOrder` | libs/matcher/src/matching_engine.cpp:275-325 | fills, remainder and book are those of the greedy walk over the opposite queue |
| `MarketShards.MarketShard.RestOrder` | libs/matcher/src/matching_engine.cpp:327-349 | the order joins its own side's queue in price-time order and the shard's structure holds again |
| `MarketShards.MarketShard.RemoveFromBook` | libs/matcher/src/matching_engine.cpp:351-377 | exactly the record leaves its side's queue |
| `MarketShards.MarketShard.PostOnlyWouldCross` | libs/matcher/src/matching_engine.cpp:202-220 | the look at the best level is the test against the head of the sorted queue |
| `MarketShards.MarketShard.FillableQuantity` | libs/matcher/src/matching_engine.cpp:103-127 | falls short of the order's quantity exactly when the opposite queue does within the limit |
| `MarketShards.MarketShard.RestUnlessDuplicate` | libs/matcher/src/matching_engine.cpp:257-266 | refuses exactly an id that the book still holds after matching |
| `MarketShards.MarketShard.FinishOrder` | libs/matcher/src/matching_engine.cpp:249-272 | what becomes of the leftover, as the simple book says |
| `MarketShards.MarketShard.PlaceOrder` | libs/matcher/src/matching_engine.cpp:198-273 | result and book are those of the simple book, and the representation invariant holds again |
| `MatchingEngine.MatchingEngine.AddMarket` | libs/matcher/src/matching_engine.cpp:75-77 | an existing market is left alone; all markets stay well formed and apart |
| `MatchingEngine.MatchingEngine.ClearMarket` | libs/matcher/src/matching_engine.cpp:79-82 | the market's book becomes empty and no other changes |
| `MatchingEngine.MatchingEngine.EnsureMarket` | libs/matcher/src/matching_engine.cpp:84-90 | the market exists afterwards, empty only if it is new |
| `MatchingEngine.MatchingEngine.Submit` | libs/matcher/src/matching_engine.cpp:129-143 | all books and the result are those of the simple engine, errors included, and the representation invariant holds |
| `MatchingEngine.MatchingEngine.Cancel` | libs/matcher/src/matching_engine.cpp:145-161 | all books and the result are those of the simple engine, errors included, and the representation invariant holds |
| `MatchingEngine.MatchingEngine.Replace` | libs/matcher/src/matching_engine.cpp:163-196 | all books and the result are those of the simple engine, errors included, and the representation invariant holds |
| `BookAnswers.SubmitAnswer` | libs/matcher/src/matching_engine.cpp:129-143 | quantities not above zero and bad iceberg displays are refused with 1005 and 1007 and change nothing; all else is placed in its own market, new or not, and no other market changes |
| `BookAnswers.CancelAnswer` | libs/matcher/src/matching_engine.cpp:145-161 | in every engine state a cancel succeeds if and only if its id rests in its market; then exactly that order with its remaining quantity is gone, otherwise nothing changes, with 1001 for an unknown market and 1004 for an unknown id |
| `BookAnswers.ReplaceAnswer` | libs/matcher/src/matching_engine.cpp:163-196 | 1001 and 1004 as for a cancel, otherwise the answer of placing the new terms under the old account and side |
| `BookAnswers.AddAndClear` | libs/matcher/src/matching_engine.cpp:75-82 | adding keeps a book that is there, clearing empties it |
| `BookAnswers.OtherBooksUntouched` | libs/matcher/src/matching_engine.cpp:75-196 | every operation leaves the books of all other markets alone |
| `BookAnswers.PlaceAnswer` | libs/matcher/src/matching_engine.cpp:198-273 | the codes 1003, 1002 and 1006, each with its condition on the book before the call; filled completely if and only if accepted and enough crosses, resting if and only if accepted, not enough crosses and the order may rest; every matched order takes an arrival number |
| `BookAnswers.RestedOrder` | libs/matcher/src/matching_engine.cpp:230-266 | an order that rests is found under its id with its own terms, what it could not trade and the next arrival number |
| `BookAnswers.PostOnlyBlockedExact` | libs/matcher/src/matching_engine.cpp:202-220 | the test against the best level finds a maker within the limit if there is any |
| `BookAnswers.FillsWithinLimit` | libs/matcher/src/matching_engine.cpp:96-101 | no buy trades above its limit and no sell below |
| `BookAnswers.NothingLeftWithinLimit` | libs/matcher/src/matching_engine.cpp:276-283 | while something of an order is left, no maker within its limit is |
| `BookAnswers.QueuesInOrder` | libs/matcher/src/matching_engine.cpp:327-349 | in every reachable state bids fall and asks rise in price, and within a price the earlier order is first |
| `BookAnswers.RestingDisplay` | libs/matcher/include/tradecore/matcher/matching_engine.hpp:120-129 | in every reachable state a hidden order shows nothing, an iceberg at most its display quantity, any other all that remains |
| `BookTheorems.WalkByPriority` | libs/matcher/src/matching_engine.cpp:275-325 | makers trade in order, each completely and at its own price but for the last; all are within the limit, and quantity is left only at the end or at the limit |
| `BookTheorems.PriorityFillsUnique` | libs/matcher/src/matching_engine.cpp:275-325 | those rules leave no choice: they determine the fills and the remainder |
| `BookTheorems.WalkTradesFillable` | libs/matcher/src/matching_engine.cpp:275-325 | matching trades the lesser of the quantity and what crosses |
| `BookTheorems.SortedUnique` | libs/matcher/src/matching_engine.cpp:327-349 | strict price-time order admits one arrangement of a set of orders |
| `BookTheorems.PriceTimePriority` | libs/matcher/src/matching_engine.cpp:198-325 | whichever way the opposite orders are listed in (better price, earlier arrival) order, a placement's fills are those of the greedy walk over that list |
| `BookTheorems.FokAllOrNothing` | libs/matcher/src/matching_engine.cpp:222-255 | a fill-or-kill order is accepted exactly when enough crosses, then fills completely; otherwise nothing changes; it never rests or stays partly filled |
| `BookTheorems.PostOnlyNeverTrades` | libs/matcher/src/matching_engine.cpp:202-220 | a post-only order produces no fill, although only the best level was looked at |
| `BookTheorems.MakerFate` | libs/matcher/src/matching_engine.cpp:286-310 | told before matching: a maker trades exactly when it is within the limit and the makers before it do not use up the quantity, and is used up exactly when the quantity covers it too |
| `BookTheorems.IdOutlastsExact` | libs/matcher/src/matching_engine.cpp:260-261 | whether an id still rests after matching can be read off the book before it |
| `BookTheorems.LeftoverExact` | libs/matcher/src/matching_engine.cpp:249-249 | quantity is left over exactly when less than that much crosses |
| `BookTheorems.RejectionExact` | libs/matcher/src/matching_engine.cpp:202-264 | a placement is rejected exactly when it is post-only and would cross, fill-or-kill without enough, or wants to rest a leftover under an id that rests out of its reach; the first two change nothing |
| `BookTheorems.RejectionUnchangedIff` | libs/matcher/src/matching_engine.cpp:202-264 | after a rejection both queues are unchanged if and only if nothing traded, and something traded if and only if a duplicate leftover met some crossing quantity, both told before the call |
| `BookTheorems.FreshRejectionTradesNothing` | libs/matcher/src/matching_engine.cpp:202-264 | under an id that does not rest, a rejected placement has traded nothing and changed nothing |
| `BookTheorems.DuplicateTradesYetRejected` | libs/matcher/src/matching_engine.cpp:260-264 | a concrete book and order: rejected as a duplicate after trading |
| `BookTheorems.CancelUndoesRest` | libs/matcher/src/matching_engine.cpp:145-161 | cancelling a fresh order that rested without trading restores both queues; only the arrival counter has moved |
| `BookTheorems.RestsAtTail` | libs/matcher/src/matching_engine.cpp:327-349 | an order that comes to rest stands behind every order of its price |
| `BookTheorems.ReplaceIsCancelThenPlace` | libs/matcher/src/matching_engine.cpp:163-196 | a replace of a resting order is a cancel and a placement with account and side kept, the same as a submit when it is admissible; it is rejected exactly when the book before the call blocks it as post-only or fill-or-kill, and then has traded nothing and leaves the order cancelled |
| `BookTheorems.ReplaceRejectionExact` | libs/matcher/src/matching_engine.cpp:163-196 | a replace is rejected if and only if its id does not rest or the book before the call blocks the replacement; a rejected one leaves all books as they were if and only if the id does not rest, and otherwise cancels |
| `BookTheorems.RejectedReplaceLosesOrder` | libs/matcher/src/matching_engine.cpp:177-189 | a concrete book and post-only replace: rejected, and the order is gone |
| `BookRuns.StepKeeps` | libs/matcher/src/matching_engine.cpp:129-196 | every operation keeps every market's invariant and every order in its own market |
| `BookRuns.RunKeeps` | libs/matcher/src/matching_engine.cpp:75-196 | the invariant holds after every run of submit, cancel, replace, add and clear |
| `BookRuns.NeverCrossed` | libs/matcher/src/matching_engine.cpp:198-349 | after every run the best bid is below the best ask |
| `BookRuns.WalkConserves` | libs/matcher/src/matching_engine.cpp:286-310 | makers and taker each lose exactly what is traded |
| `BookRuns.PlaceConserves` | libs/matcher/src/matching_engine.cpp:198-273 | quantity entered plus resting before is twice traded plus resting after plus discarded, and only immediate-or-cancel and duplicates discard |
| `BookRuns.RemovalConserves` | libs/matcher/src/matching_engine.cpp:145-161 | a removal takes exactly the order's remaining quantity off the book |
| `BookRuns.StepConserves` | libs/matcher/src/matching_engine.cpp:129-196 | every operation balances entered, traded, resting, removed and discarded quantity, market by market |
| `BookRuns.RunConserves` | libs/matcher/src/matching_engine.cpp:145-325 | over every run, all quantity that reached matching is twice traded, resting, removed or discarded |
| `BookRuns.MakersPayTheirFills` | libs/matcher/src/matching_engine.cpp:286-310 | in one matching pass each maker's remaining quantity falls by exactly the fills that name it |
| `BookHistories.PlacePays` | libs/matcher/src/matching_engine.cpp:198-273 | a placement keeps every account of placed, remaining and traded quantity true, the new order's included |
| `BookHistories.RestingOrdersAddUp` | libs/matcher/src/matching_engine.cpp:129-325 | over every run each resting order was placed with exactly what remains of it plus every fill naming it since |
| `BookHistories.AlikePlacements` | libs/matcher/src/matching_engine.cpp:198-325 | two placements alike in all but display, on books alike in all but display, have the same result and leave such books |
| `BookHistories.DisplayNeverMatters` | libs/matcher/src/matching_engine.cpp:129-325 | over every run whose orders pass the display check, erasing all hidden and iceberg flags changes no reply, so no fill, and nothing of the books but what they show |
| `Risk.FillLaw` | libs/risk/src/risk_engine.cpp:41-78 | a fill moves the position by its signed quantity, and realized profit less booked cost by the cash paid plus a rounding term |
| `Risk.ReducingLaw` | libs/risk/src/risk_engine.cpp:63-77 | reducing, closing and flipping fills are exact |
| `Risk.FillTouchesOnePosition` | libs/risk/src/risk_engine.cpp:41-78 | a fill leaves other accounts, other positions of its account, and all markets as they were |
| `Risk.AverageIsTruncated` | libs/risk/src/risk_engine.cpp:50-61 | the entry price of an extended position is the average over all that was paid, rounded toward zero, at any prices |
| `Risk.ClosingKeepsEntry` | libs/risk/src/risk_engine.cpp:63-74 | what is left of a reduced position keeps its entry price, and the closed size realizes its distance from it |
| `Risk.OpeningAtPrice` | libs/risk/src/risk_engine.cpp:50-61 | a flat position enters at the fill's price and realizes nothing |
| `Risk.FlipIsCloseThenOpen` | libs/risk/src/risk_engine.cpp:63-77 | a fill that flips a position is the fill that closes all of it followed by one that opens the rest, at the same price, in the whole risk state |
| `Risk.OpenedAtCost` | libs/risk/src/risk_engine.cpp:63-77 | a position that has just been opened or flipped is worth nothing at the fill's price |
| `Risk.ClosingInPieces` | libs/risk/src/risk_engine.cpp:63-77 | closing in two fills at one price is closing in one |
| `Risk.RoundingBound` | libs/risk/src/risk_engine.cpp:50-61 | with prices not below zero the rounding is a remainder below the new size, up for longs and down for shorts, and nothing when not extending |
| `Risk.BooksBalance` | libs/risk/src/risk_engine.cpp:41-78 | over every trading history, realized profit less booked cost is cash flow plus accumulated rounding |
| `Risk.ProfitIsCashFlowPlusDrift` | libs/risk/src/risk_engine.cpp:41-78 | realized plus unrealized profit at any mark and contract size is the exact cash-flow value plus the drift |
| `Risk.DriftIsBounded` | libs/risk/src/risk_engine.cpp:50-61 | the drift stays within the sizes that extending fills reach, less one each |
| `Risk.FillMovesNet` | libs/risk/src/risk_engine.cpp:41-78 | a fill moves its market's net position over all accounts by its signed quantity, and no other market's |
| `Risk.FillMovesAccountProfit` | libs/risk/src/risk_engine.cpp:41-78 | a fill moves its account's profit by its distance from the mark and its rounding |
| `Risk.FillMovesProfit` | libs/risk/src/risk_engine.cpp:41-78 | a fill moves total profit by its distance from the mark and its rounding |
| `Risk.FillRoundingBounded` | libs/risk/src/risk_engine.cpp:50-61 | in a whole risk state, a fill's rounding stays within its bound and entry prices stay not below zero |
| `Risk.TradeIsZeroSum` | libs/risk/src/risk_engine.cpp:41-78 | the two legs of a trade leave every net position alone and total profit up to their roundings |
| `Risk.MarkMovesProfit` | libs/risk/src/risk_engine.cpp:226-229 | raising a mark by one raises total profit by net position times contract size |
| `Risk.FillMovesEquity` | libs/risk/src/risk_engine.cpp:63-69 | a fill moves total reported equity as it moves profit, plus what it realizes once more |
| `Risk.TradeMovesEquity` | libs/risk/src/risk_engine.cpp:63-69 | a trade moves total reported equity by its roundings plus what both legs realize; it conserves it up to rounding if and only if these cancel or the contract size is zero |
| `Risk.TradeMintsEquity` | libs/risk/src/risk_engine.cpp:68-69 | a concrete trade: reported equity grows by ten, profit does not move |
| `Margin.FillsMoveOnePosition` | libs/risk/src/risk_engine.cpp:41-78 | fills of one account in one market move that position by their sum and touch nothing else of its positions |
| `Margin.WhatIfMarginsAreExact` | libs/risk/src/risk_engine.cpp:107-116 | with a mark set, the projected margins are those after the quantity is filled, in any pieces at any prices |
| `Margin.ReportedEquity` | libs/risk/src/risk_engine.cpp:164-233 | with marks set, a summary's equity is the account's share of total reported equity |
| `Margin.ProjectedEquityExact` | libs/risk/src/risk_engine.cpp:188-229 | with a mark set, the equity after a fill is the projected equity plus a closed-form error times contract size, so they agree if and only if one of the two is zero |
| `Margin.ProjectionFallsShort` | libs/risk/src/risk_engine.cpp:193-197 | a concrete order: equity ten, projected at nothing, twenty once filled at the mark |
| `Margin.CreditRaisesEquity` | libs/risk/src/risk_engine.cpp:33-35 | a credit raises equity by its amount and leaves margins alone |
| `Margin.MaintenanceWithinInitial` | libs/risk/src/risk_engine.cpp:203-237 | for any portfolio the summed, rounded-up maintenance margin is at most the initial margin |
| `Margin.StatusMonotone` | libs/risk/src/liquidation_engine.cpp:6-32 | the status only worsens as equity falls |
| `Margin.DeficitIsExact` | libs/risk/src/liquidation_engine.cpp:18-28 | crediting the deficit leaves the status for a better one, one unit less does not |
| `Verdicts.BasisPointsRoundUp` | libs/risk/src/risk_engine.cpp:235-237 | a requirement is the least whole amount that covers the basis points |
| `Verdicts.PositionCounts` | libs/risk/src/risk_engine.cpp:203-230 | what a position adds to its account's equity and to both requirements, each rounded up on its own, at its mark or else its entry price |
| `Verdicts.UnknownMarketCountsNothing` | libs/risk/src/risk_engine.cpp:207-210 | a position in a market that is not configured adds nothing |
| `Verdicts.FlatSummary` | libs/risk/src/risk_engine.cpp:166-170 | without positions equity is the two balances and nothing is required |
| `Verdicts.UnmarkedIsOrderPrice` | libs/risk/src/risk_engine.cpp:212-219 | in a market without a mark an order is projected as if its own price were the mark |
| `Verdicts.PreTradeExact` | libs/risk/src/risk_engine.cpp:98-125 | in a market with a mark an order is accepted if and only if it is not reduce-only growth and the initial margin after its quantity has filled, in any pieces at any prices, is covered by the equity before it and the projected revaluation; the figures are those |
| `Verdicts.VerdictCodes` | libs/risk/src/risk_engine.cpp:83-125 | codes 2001, 2002 and 2003 for the three refusals, an unknown market before anything else |
| `Verdicts.UncoveredOrderRefused` | libs/risk/src/risk_engine.cpp:118-122 | a flat account without collateral asks for 400 at a mark of 1000: refused with 2002 and a requirement of 20000 |
| `Verdicts.LiquidationExact` | libs/risk/src/liquidation_engine.cpp:6-32 | an account is liquidated in full if and only if maintenance is required and equity is below it, healthy if and only if none is required or equity covers the initial margin; the deficits that go with it |
| `Verdicts.LeastCredits` | libs/risk/src/liquidation_engine.cpp:18-28 | exactly the credits from maintenance less equity on leave full liquidation, exactly those from initial less equity on make healthy |
| `RiskEngine.RiskEngine.ConfigureMarket` | libs/risk/src/risk_engine.cpp:22-27 | the configuration is replaced, the mark price kept |
| `RiskEngine.RiskEngine.SetMarkPrice` | libs/risk/src/risk_engine.cpp:29-31 | only that market's mark price changes |
| `RiskEngine.RiskEngine.CreditCollateral` | libs/risk/src/risk_engine.cpp:33-35 | the new state is the credit that `CreditRaisesEquity` and `DeficitIsExact` are about |
| `RiskEngine.RiskEngine.DebitCollateral` | libs/risk/src/risk_engine.cpp:37-39 | the new state is a negative credit |
| `RiskEngine.RiskEngine.ApplyFill` | libs/risk/src/risk_engine.cpp:41-78 | the branching update is the position law that the profit and zero-sum results are about |
| `RiskEngine.RiskEngine.CollectExposures` | libs/risk/src/risk_engine.cpp:179-186 | the vector lists every position once, in whatever order the map yields |
| `RiskEngine.RiskEngine.AddDelta` | libs/risk/src/risk_engine.cpp:188-201 | the vector then lists the positions with the hypothetical fill added |
| `RiskEngine.RiskEngine.AccountSummaryWithDelta` | libs/risk/src/risk_engine.cpp:164-233 | the accumulating loop computes the sums over the exposure map, whatever the iteration order |
| `RiskEngine.RiskEngine.EvaluateOrder` | libs/risk/src/risk_engine.cpp:80-126 | decision, code and projected figures, all three rejections included, over those sums |
| `RiskEngine.RiskEngine.EvaluateLiquidation` | libs/risk/src/liquidation_engine.cpp:6-32 | the classification that `StatusMonotone` and `DeficitIsExact` are about, of the account's own summary |
| `Daemon.PlaceKnown` | apps/tradecored/src/main.cpp:352-363 | after a placement every resting order's owner is remembered unless an accepted order that does not rest shares its id with one that does |
| `Daemon.NewOrderKeepsOwnersIff` | apps/tradecored/src/main.cpp:319-363 | a new order keeps all owners remembered if and only if it orphans none: told before the message, it can be filled completely and its id rests with an order that outlasts it; only a reused id can |
| `Daemon.CancelKeepsOwners` | apps/tradecored/src/main.cpp:383-388 | a cancel keeps all owners remembered; it forgets its key if and only if that order rested, and changes nothing otherwise |
| `Daemon.RememberedIsTrue` | apps/tradecored/src/main.cpp:283-285 | in a coherent state the remembered account, market and side of a resting order are the matcher's own |
| `Daemon.AmendContextIsTrue` | apps/tradecored/src/main.cpp:411-419 | the context a replace looks up is the order's true account, market and side |
| `Daemon.ReplaceKeepsOwners` | apps/tradecored/src/main.cpp:408-436 | a replace keeps all owners remembered, accepted or not |
| `Daemon.RunKeepsOwnersIff` | apps/tradecored/src/main.cpp:307-442 | owners are remembered in every state of a run if and only if no message of it orphans an order |
| `Daemon.RunKeepsOwners` | apps/tradecored/src/main.cpp:307-442 | while no message orphans an order, matcher and owner map stay coherent |
| `Daemon.FreshIdsOrphanNothing` | apps/tradecored/src/main.cpp:320-324 | new orders under ids that do not rest when they arrive orphan nothing |
| `Daemon.ConfiguredIsUntraded` | apps/tradecored/src/main.cpp:199-215 | configuring markets leaves empty books, no positions, and every configured market known to matcher and risk engine |
| `DaemonAnswers.ConfiguredAsWritten` | apps/tradecored/src/main.cpp:199-209 | every configured market has the parameters and the mark of its last entry |
| `DaemonAnswers.SharedIdIff` | apps/tradecored/src/main.cpp:320-324 | two new orders share an id if and only if accounts agree modulo 2^16 and nonces modulo 2^32 |
| `DaemonAnswers.AttemptTerms` | apps/tradecored/src/main.cpp:339-347 | the order put to the matcher has the message's own terms, and for a replace the old owner and side |
| `DaemonAnswers.NewOrderGate` | apps/tradecored/src/main.cpp:326-347 | in a market with a mark a new order reaches the matcher if and only if it is not reduce-only growth and is covered; otherwise matcher, risk state and owners stay as they were |
| `DaemonAnswers.UnmarkedGate` | apps/tradecored/src/main.cpp:327-334 | in a market without a mark the order's own price takes its place |
| `DaemonAnswers.UnknownMarketGate` | apps/tradecored/src/main.cpp:335-337 | in a market that is not configured no new order changes anything |
| `DaemonAnswers.OwnKeyExact` | apps/tradecored/src/main.cpp:352-363 | an accepted message leaves its own id remembered if and only if its order rests now; no other id is touched, and a rejected one touches none |
| `DaemonAnswers.NoAttemptNoChange` | apps/tradecored/src/main.cpp:335-337 | a message that puts nothing to the matcher changes nothing |
| `DaemonLedger.HandledRisk` | apps/tradecored/src/main.cpp:348-357 | a message changes the risk state by processing the fills of an accepted result under the taker's context |
| `DaemonLedger.LosesFillsIff` | apps/tradecored/src/main.cpp:348-357 | all fills that the matcher returns are applied if and only if the message is not a crossing duplicate leftover, told before it is handled; then none is |
| `DaemonLedger.LostFillsLeaveTheBook` | apps/tradecored/src/main.cpp:348-350 | when fills are lost no position moves although their positive quantity has left the makers' side of the book |
| `DaemonLedger.FillsNameMakers` | libs/matcher/src/matching_engine.cpp:294-299 | the k-th fill of a placement names the k-th maker, at its price, for a positive quantity |
| `DaemonLedger.MakerTrades` | libs/matcher/src/matching_engine.cpp:202-310 | a maker trades if and only if the order is not blocked and reaches it |
| `DaemonLedger.MessageMakersRest` | apps/tradecored/src/main.cpp:283-283 | every fill's maker rests in the matcher's book before the message |
| `DaemonLedger.MessageLedger` | apps/tradecored/src/main.cpp:270-305 | in a coherent state a message moves every account's position in every market by both true legs of all its fills, or by nothing when it loses them |
| `DaemonLedger.RunLedger` | apps/tradecored/src/main.cpp:270-442 | over every run that orphans nothing, each position is its start plus both true legs of every fill the matcher made, less exactly those that are lost |
| `DaemonLedger.FreshIdsLoseNothing` | apps/tradecored/src/main.cpp:320-324 | fresh ids lose no fill |
| `DaemonLedger.EveryFillIsBooked` | apps/tradecored/src/main.cpp:270-442 | over every run with fresh ids, each position is its start plus both true legs of every fill, makers and their accounts as the matcher had them before each message |
| `DaemonLedger.FillsMoveNet` | apps/tradecored/src/main.cpp:270-305 | processed fills move the taker's market's net position by nothing, once or twice the quantity of each fill, as its maker is remembered |
| `DaemonLedger.FillsKeepNetIff` | apps/tradecored/src/main.cpp:270-305 | in any state, positive fills leave every net position alone if and only if every maker is remembered in the taker's market and on the other side |
| `DaemonLedger.MessageKeepsNetIff` | apps/tradecored/src/main.cpp:307-442 | in any state, a message leaves every net position alone if and only if, told before it is handled, it attempts nothing, is blocked, loses its fills, or reaches remembered makers only |
| `DaemonLedger.RunKeepsNetIff` | apps/tradecored/src/main.cpp:307-442 | over any run, net positions stay where they were throughout if and only if every message passes that check |
| `DaemonLedger.MessageMakersKnown` | apps/tradecored/src/main.cpp:283-293 | in a coherent state every fill of every message has a remembered maker, in the taker's market and on the other side |
| `DaemonLedger.RunIsZeroSum` | apps/tradecored/src/main.cpp:270-442 | over every run that orphans nothing, every message keeps the net positions, which keep their sum in each market throughout |
| `DaemonLedger.NetStaysZero` | apps/tradecored/src/main.cpp:199-442 | from configured empty books and flat accounts, that sum is zero in every state of such a run |
| `DaemonProfit.FillsMoveProfit` | apps/tradecored/src/main.cpp:270-305 | processing fills with remembered makers moves total profit at any marks by rounding alone |
| `DaemonProfit.MessageMovesProfit` | apps/tradecored/src/main.cpp:270-442 | in any state, a message that keeps the net positions moves total profit at any marks by rounding alone |
| `DaemonProfit.RunMovesProfit` | apps/tradecored/src/main.cpp:270-442 | over every run whose messages keep the net positions, coherent or not, total profit at any marks moves by the accumulated rounding alone |
| `DaemonProfit.RunMovesProfitIff` | apps/tradecored/src/main.cpp:270-442 | with contract sizes other than zero, total profit at all marks moves by rounding alone throughout a run if and only if every message keeps the net positions |
| `DaemonProfit.LegsBounded` | apps/tradecored/src/main.cpp:270-305 | the rounding of a list of fills stays within the sizes that its extending legs reach, less one each |
| `DaemonProfit.DriftWithinBound` | apps/tradecored/src/main.cpp:270-442 | over every run at prices not below zero, the accumulated rounding stays within its bound |
| `DaemonProfit.RunProfitWithinBound` | apps/tradecored/src/main.cpp:270-442 | over every such run whose messages keep the net positions, total profit moves by at most that bound |
| `DaemonAccounts.FillsAtMakersPrice` | libs/matcher/src/matching_engine.cpp:279-299 | every fill is at the price at which its maker rested before the message |
| `DaemonAccounts.MessageEarns` | apps/tradecored/src/main.cpp:270-305 | in a coherent state a message earns every account what its true legs are worth at any marks, or nothing when it loses its fills |
| `DaemonAccounts.EveryAccountIsPaid` | apps/tradecored/src/main.cpp:270-442 | over every run that orphans nothing, every account has earned at any marks what its own legs of the fills are worth: signed quantity times the distance of the fill price from the mark, and rounding |
| `DaemonCases.SharedIdForgetsOwner` | apps/tradecored/src/main.cpp:320-324 | two accounts with the same low 16 bits: in three messages from an empty market, one order's owner is forgotten while it rests |
| `DaemonCases.SharedIdBreaksZeroSum` | apps/tradecored/src/main.cpp:320-363 | a fourth message then leaves a net position of 5, from every state with such a market |
| `DaemonCases.SharedIdLosesAFill` | apps/tradecored/src/main.cpp:348-350 | in three messages from an empty market the matcher trades an offer away and the risk state is as it was |
| `DaemonCases.FundedStartBreaks` | apps/tradecored/src/main.cpp:199-363 | one configured market and four funded flat accounts: net position 0 before, 5 after four messages |
| `DaemonCases.FundedStartLoses` | apps/tradecored/src/main.cpp:199-350 | the same start: the maker's true leg is -1 and its account has no position |
| `DaemonCases.UnfundedStartBreaks` | apps/tradecored/src/main.cpp:199-363 | one configured market without a mark and no accounts at all: net position 5 after four messages |
| `DaemonCases.UnfundedStartLoses` | apps/tradecored/src/main.cpp:199-350 | the same start: three messages lose a fill, and no account has come into being |
| `DaemonProcess.Process.Configure` | apps/tradecored/src/main.cpp:199-215 | matcher and risk engine of the live daemon hold exactly the configured markets on top of what they held |
| `DaemonProcess.Process.ProcessFills` | apps/tradecored/src/main.cpp:270-305 | the loop applies the taker's leg of every fill and the maker's when remembered, in order |
| `DaemonProcess.Process.HandleNewOrder` | apps/tradecored/src/main.cpp:319-363 | live matcher, risk engine and owner map move as the daemon's specification says |
| `DaemonProcess.Process.HandleCancel` | apps/tradecored/src/main.cpp:383-388 | live matcher and owner map move as the daemon's specification says |
| `DaemonProcess.Process.HandleReplace` | apps/tradecored/src/main.cpp:408-436 | live matcher, risk engine and owner map move as the daemon's specification says |
| `DaemonProcess.Process.LogFrame` | apps/tradecored/src/main.cpp:312-363 | a frame is appended to the log and then handled if it decodes |
| `EventLoop.Node.HandleNext` | apps/tradecored/src/main.cpp:310-312 | one turn of a drain loop takes the front of its lane, if there is one, logs it and handles it |
| `EventLoop.Node.ProcessNewOrders` | apps/tradecored/src/main.cpp:307-369 | drains the live new-order lane: logs every frame and handles those that decode, in order; malformed frames are counted and skipped |
| `EventLoop.Node.ProcessCancels` | apps/tradecored/src/main.cpp:371-394 | drains the live cancel lane: logs every frame and handles those that decode, in order |
| `EventLoop.Node.ProcessReplaces` | apps/tradecored/src/main.cpp:396-442 | drains the live replace lane: logs every frame and handles those that decode, in order |
| `EventLoop.Node.Turn` | apps/tradecored/src/main.cpp:456-457 | a turn empties the lanes; it is one run of their decoded messages and one stretch of the journal, and leaves the daemon ready for the next turn |
| `EventLoop.Node.Receive` | apps/tradecored/src/main.cpp:188-190 | frames that arrive between turns pass the pipeline one by one |
| `EventLoop.Node.Run` | apps/tradecored/src/main.cpp:456-457 | over any number of turns the live daemon makes the run of the decoded messages of all frames it handles, and its log grows by all of them, so the run and journal results hold of it |
| `Intake.SubmitAllFillsLane` | libs/ingest/src/ingress_pipeline.cpp:31-77 | arriving frames join their lane at its end exactly if they are accepted, and each lane keeps to its own kind |
| `Intake.AcceptedFramesAreHandled` | apps/tradecored/src/main.cpp:456-457 | over the whole event loop the frames of each kind are handled exactly once each, in the order in which they were accepted |
| `Intake.RoomForAll` | libs/ingest/src/ingress_pipeline.cpp:54-73 | while a batch fits an empty lane, its frames of that kind are accepted if and only if they are admitted |
| `Intake.AdmittedFramesAreHandled` | libs/ingest/src/ingress_pipeline.cpp:31-77 | over the whole event loop, if no batch brings more frames of a kind than the lane's depth less one, every authenticated and admitted frame of it is handled exactly once, in order of arrival |
| `Journal.PayloadRoundTrip` | apps/tradecored/src/main.cpp:60-71 | a journal record gives back kind, account, nonce, arrival time and payload of its frame |
| `Journal.PayloadLayout` | apps/tradecored/src/main.cpp:60-71 | where kind, account, nonce, arrival time and payload stand in a journal record |
| `Journal.MessageFields` | apps/tradecored/src/main.cpp:319-347 | a message carries its frame's own account and nonce and the decoded fields, and there is none exactly for what does not decode |
| `Journal.FramesAreARun` | apps/tradecored/src/main.cpp:307-442 | handling frames is the run of the messages that decode |
| `Journal.JournaledHolds` | apps/tradecored/src/main.cpp:73-80 | journaling adds exactly the frames' entries, in order, to the log that the writer holds |
| `Journal.FoldRebuilds` | apps/tradecored/src/main.cpp:307-442 | folding the handler over the records of a journal is handling its frames, from any state |
| `Journal.ReplayRebuildsDaemon` | apps/tradecored/src/main.cpp:307-442 | under every schedule of appends, flushes, syncs and reopenings that journals the frames, replaying the flushed file ends in the state of the daemon that handled them |
| `Journal.JournalRebuildsDaemon` | apps/tradecored/src/main.cpp:307-442 | the daemon's own journal in a new file, replayed, ends in the state of its run |
| `SpscRing.CapacityCheckExact` | libs/common/include/tradecore/common/spsc_ring.hpp:16-21 | the bit test accepts exactly the powers of two |
| `SpscRing.MaskIsRemainder` | libs/common/include/tradecore/common/spsc_ring.hpp:25-25 | masking is the remainder modulo the capacity |
| `SpscRing.StepKeeps` | libs/common/include/tradecore/common/spsc_ring.hpp:23-45 | every load, slot access and store of either thread keeps the ring's invariant |
| `SpscRing.RunKeeps` | libs/common/include/tradecore/common/spsc_ring.hpp:16-45 | the invariant holds at every point of every interleaving |
| `SpscRing.RingIsBoundedFifo` | libs/common/include/tradecore/common/spsc_ring.hpp:16-45 | in every interleaving popped values are a prefix of pushed ones, at most capacity - 1 are in flight, no empty slot is read and no unread one overwritten |
| `SpscRing.NoSlotRace` | libs/common/include/tradecore/common/spsc_ring.hpp:30-42 | producer and consumer are never about to touch the same slot |
| `SpscRing.StepsAreQueueOperations` | libs/common/include/tradecore/common/spsc_ring.hpp:31-43 | the two index stores are the linearization points: enqueue at the back with room, dequeue of the front; no other step is visible |
| `SpscRing.RefusalsAreExact` | libs/common/include/tradecore/common/spsc_ring.hpp:26-40 | a push is refused exactly when the tail it saw leaves no room, a pop exactly when the head it saw leaves no data |
| `SpscRing.SlotAccessNeverBlocks` | libs/common/include/tradecore/common/spsc_ring.hpp:30-42 | a thread that has come to a slot access can always take it, so the step guards exclude no access |
| `SpscRing.Create` | libs/common/include/tradecore/common/spsc_ring.hpp:16-21 | construction is refused for exactly the capacities that are not powers of two, and otherwise gives an empty ring |
| `SpscRing.Buffer.Push` | libs/common/include/tradecore/common/spsc_ring.hpp:23-33 | undisturbed, succeeds exactly when fewer than capacity - 1 values are in flight, and enqueues |
| `SpscRing.Buffer.Pop` | libs/common/include/tradecore/common/spsc_ring.hpp:35-45 | undisturbed, takes the oldest value in flight, if there is one |
| `Checksum.ComputeChecksum32` | libs/wal/src/wal_writer.cpp:22-30 | the loop computes the recursive FNV-1a hash |
| `Checksum.MultiplyInjective` | libs/wal/src/wal_writer.cpp:27-27 | multiplying by the prime is injective modulo 2^32 |
| `Checksum.SingleByteDetected` | libs/wal/src/wal_writer.cpp:22-30 | payloads of any length that differ in one byte have different checksums |
| `Checksum.BytesRoundTrip` | libs/wal/src/wal_writer.cpp:101-102 | a field written in its width reads back |
| `Checksum.LittleEndian` | libs/wal/src/wal_writer.cpp:101-102 | byte i of a field is the lowest byte of the number shifted right by i bytes |
| `Checksum.XorIsBitwise` | libs/wal/src/wal_writer.cpp:26-26 | a bit of the exclusive or is set exactly when the two bits differ |
| `Checksum.KnownValues` | libs/wal/src/wal_writer.cpp:22-30 | the published values of 32-bit FNV-1a for nothing and for the letter a |
| `Wal.HeaderRoundTrip` | libs/wal/include/tradecore/wal/wal_writer.hpp:13-20 | a header written as bytes reads back |
| `Wal.ParseRecord` | libs/wal/src/wal_writer.cpp:147-176 | reading a written record delivers it and consumes exactly its bytes, whatever follows |
| `Wal.LogRoundTrip` | libs/wal/src/wal_writer.cpp:89-176 | reading a written log delivers all entries in order, numbered consecutively, then reads on |
| `Wal.AlteredRecordRefused` | libs/wal/src/wal_writer.cpp:162-173 | a record with one altered payload byte is refused as a checksum mismatch |
| `Wal.AlteredLogStopsThere` | libs/wal/src/wal_writer.cpp:147-176 | a log with one altered payload byte delivers the records before it and then fails |
| `Wal.RecoveredLog` | libs/wal/src/wal_writer.cpp:72-87 | opening a log of n entries resumes at n + 1 |
| `Wal.StepKeepsLog` | libs/wal/src/wal_writer.cpp:89-130 | append, flush, sync and reopen keep file followed by buffer equal to the log's encoding |
| `Wal.AnyScheduleKeepsLog` | libs/wal/src/wal_writer.cpp:72-130 | under every schedule and threshold the log is what was appended, reads back whole once flushed, and reopening resumes after it |
| `Wal.NewFileHoldsNothing` | libs/wal/src/wal_writer.cpp:72-87 | a new file starts at sequence 1 with the empty log |
| `Wal.SeekFindsFirst` | libs/wal/src/wal_writer.cpp:178-193 | seeking k leaves the reader at the first record numbered k or higher, or at the end |
| `Wal.SeekFromStart` | libs/wal/src/wal_writer.cpp:178-193 | the same from the start of the file, where `seek_sequence` begins |
| `Wal.RecordLayout` | libs/wal/include/tradecore/wal/wal_writer.hpp:13-20 | where each field of a record stands in the file, magic and version included |
| `Wal.TruncatedRecordRefused` | libs/wal/src/wal_writer.cpp:152-168 | a record that ends early is the end of the log while its header is incomplete, and a truncation error from then on |
| `Wal.TornTail` | libs/wal/src/wal_writer.cpp:147-176 | what stands before a torn record is delivered |
| `Wal.WrongMagicRefused` | libs/wal/src/wal_writer.cpp:158-160 | a record with another magic number is refused |
| `Wal.WrongChecksumRefused` | libs/wal/src/wal_writer.cpp:162-173 | a wrong checksum field is refused if and only if there is a payload |
| `Wal.FlushAtThreshold` | libs/wal/src/wal_writer.cpp:106-108 | an append writes the file exactly when the buffered bytes reach the threshold |
| `WalFiles.Reader.Next` | libs/wal/src/wal_writer.cpp:147-176 | delivers and consumes one record, or reports the end or the reason, as the parser of the round trips does |
| `WalFiles.Reader.SeekSequence` | libs/wal/src/wal_writer.cpp:178-193 | rewinding, reading and stepping back ends where `SeekFindsFirst` says, or with the reading error |
| `WalFiles.Writer.Append` | libs/wal/src/wal_writer.cpp:89-109 | the record's encoding joins the buffer and the threshold decides the flush, as in `AnyScheduleKeepsLog` |
| `WalFiles.Writer.Flush` | libs/wal/src/wal_writer.cpp:111-122 | the buffer moves to the end of the file |
| `WalFiles.Writer.Sync` | libs/wal/src/wal_writer.cpp:124-130 | on the bytes, the same as a flush |
| `WalFiles.OpenWriter` | libs/wal/src/wal_writer.cpp:72-87 | opening fails exactly where reading the file fails, and otherwise finds the sequence after the last record |
| `WalFiles.Reopen` | libs/wal/src/wal_writer.cpp:61-87 | closing and reopening succeeds and continues the same log |
| `Snapshot.HeaderRoundTrip` | libs/snapshot/src/snapshot_store.cpp:19-25 | a header written as bytes reads back |
| `Snapshot.ParseRecord` | libs/snapshot/src/snapshot_store.cpp:45-108 | reading a written record delivers it and consumes exactly its bytes |
| `Snapshot.FileRoundTrip` | libs/snapshot/src/snapshot_store.cpp:110-126 | loading written records gives them back |
| `Snapshot.AlteredRecordRefused` | libs/snapshot/src/snapshot_store.cpp:95-105 | a version-2 record with one altered payload byte is refused |
| `Snapshot.RecordLayout` | libs/snapshot/src/snapshot_store.cpp:19-67 | where each field of a record stands in the file, magic and version included |
| `Snapshot.TruncatedRecordRefused` | libs/snapshot/src/snapshot_store.cpp:69-100 | a record that ends early is the end of the file, a truncated payload or a truncated checksum, by where it ends |
| `Snapshot.ForeignRecordRefused` | libs/snapshot/src/snapshot_store.cpp:79-84 | a record with another magic number or version is refused |
| `Snapshot.LegacyRecordRead` | libs/snapshot/src/snapshot_store.cpp:82-95 | a version-1 record is read without a checksum, and the next record follows at once |
| `Snapshot.PersistBehindDamage` | libs/snapshot/src/snapshot_store.cpp:149-213 | persisting behind a damaged record appends all the same; with a limit on, the damage is reported and nothing is compacted |
| `Snapshot.StartIsBest` | libs/snapshot/src/snapshot_store.cpp:215-232 | compaction keeps the longest suffix within the enabled limits, or the last record |
| `Snapshot.BestSuffixExtends` | libs/snapshot/src/snapshot_store.cpp:192-249 | the best suffix of the best suffix so far is the best suffix of the whole history |
| `Snapshot.PersistCompacts` | libs/snapshot/src/snapshot_store.cpp:149-249 | persisting into intact records leaves exactly the suffix that compaction chooses |
| `Snapshot.HistoryKeepsBestSuffix` | libs/snapshot/src/snapshot_store.cpp:149-249 | after every persist the file is the longest suffix of the whole history within the limits, or the last record, and the latest snapshot is the one just persisted |
| `Snapshot.Store.Persist` | libs/snapshot/src/snapshot_store.cpp:149-166 | the file becomes what the history result is about; without a directory nothing changes and an error is returned |
| `Snapshot.Store.CompactIfNeeded` | libs/snapshot/src/snapshot_store.cpp:192-249 | the file is rewritten to the chosen suffix exactly when an enabled limit is exceeded, and left alone on a loading error |
| `Snapshot.Store.DropWhileTooBig` | libs/snapshot/src/snapshot_store.cpp:220-232 | the loop stops where the best-suffix result says |
| `Snapshot.Store.Read` | libs/snapshot/src/snapshot_store.cpp:168-183 | the last record of the file, nothing, or the loading error |
| `Snapshot.SumSizes` | libs/snapshot/src/snapshot_store.cpp:221-227 | the encoded size of the records from an index on |
| `Snapshot.WriteRecord` | libs/snapshot/src/snapshot_store.cpp:45-67 | the record's encoding, checksum last |
| `Snapshot.LoadRecords` | libs/snapshot/src/snapshot_store.cpp:110-126 | all records up to the end of the file or the first error |
| `Replay.FromDropsPrefix` | libs/replay/src/replay_driver.cpp:44-49 | skipping below the resume point drops exactly a prefix of a numbered log |
| `Replay.ReplayedPart` | libs/replay/src/replay_driver.cpp:24-50 | exactly which records are applied on top of a snapshot, the 32-bit wrap included |
| `Replay.WrappedResumeCountsTwice` | libs/replay/src/replay_driver.cpp:32-33 | counting events over a snapshot gives the length of the log if and only if the snapshot's number is not 2^32 - 1 |
| `Replay.SnapshotPlusSuffixIsFullReplay` | libs/replay/src/replay_driver.cpp:24-50 | for every fold-style handler, snapshot history, compaction limits and log, replay from the latest snapshot ends in the state of folding the whole log |
| `Replay.NoSnapshotIsFullReplay` | libs/replay/src/replay_driver.cpp:24-50 | without a snapshot the whole log is applied |
| `Replay.ReplayWithoutLog` | libs/replay/src/replay_driver.cpp:31-40 | without a log only the snapshot is restored, and without a handler for it not even that |
| `Replay.ReplayRefuses` | libs/replay/src/replay_driver.cpp:25-31 | without an event handler nothing is read; behind an unreadable snapshot nothing is applied |
| `Replay.ReplayStopsAtDamage` | libs/replay/src/replay_driver.cpp:42-49 | a log with an altered record is replayed up to that record and then fails |
| `Replay.Execute` | libs/replay/src/replay_driver.cpp:24-50 | the driver computes the outcome that these results are about, missing handler, missing log and reading errors included |
| `Replay.ReplayLog` | libs/replay/src/replay_driver.cpp:42-49 | the reading loop folds the records at or above the resume point until the end or an error |
| `Ingress.WindowsAdvance` | libs/ingest/src/ingress_pipeline.cpp:95-101 | between two arrivals the window is the same, or starts at least a second later at an arrival in between |
| `Ingress.CounterIsExact` | libs/ingest/src/ingress_pipeline.cpp:95-127 | an open window's counter is the number of arrivals it admitted |
| `Ingress.StartExact` | libs/ingest/src/ingress_pipeline.cpp:96-101 | a window starts with the first frame a second or more after the start of the one before it |
| `Ingress.AdmittedExact` | libs/ingest/src/ingress_pipeline.cpp:103-124 | an arrival is admitted if and only if its window has admitted fewer of its kind than the limit |
| `Ingress.WindowWithinLimit` | libs/ingest/src/ingress_pipeline.cpp:95-127 | no window admits more than the limit, even when timestamps go backwards |
| `Ingress.AtMostTwoWindows` | libs/ingest/src/ingress_pipeline.cpp:95-101 | arrivals in order within one second fall into at most two windows |
| `Ingress.SlidingSecondBound` | libs/ingest/src/ingress_pipeline.cpp:95-127 | with non-decreasing timestamps any second holds at most twice the limit of admitted arrivals |
| `Ingress.BurstWindows` | libs/ingest/src/ingress_pipeline.cpp:95-127 | what the window counts through a burst across its end |
| `Ingress.TwiceTheLimit` | libs/ingest/src/ingress_pipeline.cpp:95-127 | for every configuration and kind, a burst of which one second admits twice the limit |
| `Ingress.LeastBoundPerSecond` | libs/ingest/src/ingress_pipeline.cpp:95-127 | a number bounds the admitted arrivals of every second if and only if it is at least twice the limit |
| `Ingress.LimitPerSecondIff` | libs/ingest/src/ingress_pipeline.cpp:95-127 | every second keeps to the limit itself if and only if the limit is zero |
| `Ingress.WindowsAreIndependent` | libs/ingest/src/ingress_pipeline.cpp:37-47 | an account's window depends on its own authenticated frames alone |
| `Ingress.AcceptedIsAdmitted` | libs/ingest/src/ingress_pipeline.cpp:31-77 | every accepted frame is one that its account's limiter admitted |
| `Ingress.SubmitAnswer` | libs/ingest/src/ingress_pipeline.cpp:31-77 | a frame is accepted if and only if it is a heartbeat, or authenticated, admitted and met by a lane with fewer than depth - 1 frames; every frame is counted in exactly one way |
| `Ingress.AcceptedExact` | libs/ingest/src/ingress_pipeline.cpp:31-127 | in any run of the pipeline, the same in terms of the admitted arrivals of the account's window and the lane's frames |
| `Ingress.PipelineSlidingBound` | libs/ingest/src/ingress_pipeline.cpp:31-127 | whatever all accounts send and however the lanes drain, any second holds at most twice the limit of an account's accepted frames of a kind |
| `Ingress.IngressPipeline.constructor` | libs/ingest/src/ingress_pipeline.cpp:14-19 | three empty rings of the default depth, and every frame passes authentication |
| `Ingress.IngressPipeline.Configure` | libs/ingest/src/ingress_pipeline.cpp:21-29 | fails exactly on a depth that is not a power of two; otherwise lanes, windows and counters start over |
| `Ingress.IngressPipeline.Submit` | libs/ingest/src/ingress_pipeline.cpp:31-77 | windows, lanes, counters and answer for every outcome, over the live rings |
| `Ingress.IngressPipeline.Push` | libs/ingest/src/ingress_pipeline.cpp:54-68 | the frame joins the ring of its kind if and only if that holds fewer than depth - 1 frames |
| `Ingress.IngressPipeline.RateLimit` | libs/ingest/src/ingress_pipeline.cpp:95-127 | the verdict and the new window that the bounds are about |
| `Ingress.IngressPipeline.Drain` | libs/ingest/src/ingress_pipeline.cpp:79-89 | takes the front of a lane's ring |

## Left out

Simplifications inside the modelled parts:

- Integers are unbounded: 64-bit overflow of quantities, prices and profit, and of the arrival counter, is not modelled. Fields whose width decides behaviour (order ids, WAL and snapshot headers, the resume point, the hash) are modelled at their width.
- Order flags are the four bits that the code tests; time in force has the five values of the enumeration.
- `std::map` is the sequence of its entries in key order, the unordered maps are Dafny maps; memory resources and allocation failure are not modelled.
- SpscRing: slot accesses take effect at once. The acquire and release orderings are represented by what a load of the other index may return, and `NoSlotRace` shows that no slot is touched by both sides at a time.
- SpscRing.Create: answers a refused capacity with null instead of an exception. `empty` is not modelled.
- Wal.LogRoundTrip: payloads are shorter than 2^32 bytes and sequence numbers fit 64 bits, since the header fields keep no more; the same holds of the other log and snapshot file results.
- Header bytes are little-endian, as on the hosts the program is built for. Files are byte sequences with complete writes: failing opens and writes, `fsync`, the remove and rename of compaction, and torn tails are not modelled.
- WalFiles.Writer.Sync: does not model durability, only the bytes.
- Replay.SnapshotPlusSuffixIsFullReplay: the snapshot's number is below 2^32 - 1; `ReplayedPart` covers that number too.
- Handlers of a replay are functions on a state, so a handler that throws is not modelled.
- Ingress.IngressPipeline.Configure: promises nothing of the pipeline when it fails; the program ends there. The calls on a lane's ring are undisturbed calls, since arrivals and drains alternate. The 32-bit counters of a window are unbounded, and `reset_stats` is not modelled.
- EventLoop.Node.Turn: takes the lanes in the order in which they are written; C++ leaves the order of the three operands open. The message decoders are arbitrary functions of a frame's payload that may refuse it.
- EventLoop.Node.Run: frames arrive between turns, in batches; one that arrives while a lane is drained is not handled in that same turn. Sleeping, the status line and shutdown are not modelled.
- DaemonLedger.NetStaysZero: holds of runs that orphan nothing; `Daemon.RunKeepsOwnersIff` and `DaemonLedger.RunKeepsNetIff` say exactly which runs those are and which others keep their sum.
- DaemonLedger.RunLedger: holds of runs that orphan nothing, since a forgotten owner's leg is applied to nobody.
- DaemonCases.FundedStartBreaks: credits the four accounts before the first message, which the daemon itself never does; `DaemonCases.UnfundedStartBreaks` starts without.
- Margin.WhatIfMarginsAreExact: states margins only; `ProjectedEquityExact` says what holds of the projected equity.
- The authentication verifier is an arbitrary predicate on frames.

Not modelled:

- The daemon's express feed, trade metadata, snapshot payload and block counter: they do not feed back into matching, risk or the log.
- The byte layout of the three message codecs: fixed fields read in order, with no effect on the engine beyond the message they yield or refuse.
- libs/ledger, libs/api and libs/funding: the daemon constructs or feeds them, but nothing that matching, risk or persistence does depends on them.
- libs/auth, libs/config, libs/telemetry, the transports of libs/ingest and apps/webui: wrappers, parsing, floating-point statistics, sockets and user interface.
- `get_all_accounts` and `record_count`: listings that no other modelled code reads.
