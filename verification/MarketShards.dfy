/** One market: the two sides, the index of resting orders by encoded id, and the arrival counter. */
module MarketShards {
  import opened Common
  import opened OrderBook
  import opened BookInvariant
  import opened Ladder
  import opened PriceLevels
  import opened BookSides

  class MarketShard {
    var bookOrders: map<U64, OrderRecord>
    const bids: BookSide
    const asks: BookSide
    var nextSequence: nat

    constructor ()
      ensures Valid() && View() == EMPTY_BOOK && fresh(Repr())
    {
      bids := new BookSide(Buy);
      asks := new BookSide(Sell);
      bookOrders, nextSequence := map[], 1;
      new;
      hide BookInv, BookSide.Valid;
      EmptyInv();
    }

    ghost function Repr(): set<object>
      reads this, bids, asks
      ensures this in Repr() && bids in Repr() && asks in Repr()
    {
      {this} + bids.Repr() + asks.Repr()
    }

    ghost function View(): Book
      reads this, bids, asks
    {
      Book(Flatten(bids.ladder), Flatten(asks.ladder), nextSequence)
    }

    /** The records linked into either side. */
    ghost function Records(): set<OrderRecord>
      reads this, bids, asks
    {
      bids.home.Keys + asks.home.Keys
    }

    ghost predicate Structured()
      reads Repr()
    {
      && bids.side == Buy && asks.side == Sell
      && bids != asks && bids.levels !! asks.levels && bids.home.Keys !! asks.home.Keys
      && bids.Valid() && asks.Valid()
      && IndexOk(bookOrders, Records())
    }

    ghost predicate Valid()
      reads Repr()
    {
      Structured() && BookInv(View())
    }

    lemma IndexTells(id: OrderId)
      requires Structured()
      ensures Encode(id) in bookOrders <==> Contains(View(), id)
    {
      if Encode(id) in bookOrders {
        var r := bookOrders[Encode(id)];
        EncodeInjective(r.request.id, id);
        if r in bids.home {
          var p := bids.RecordQueued(r);
        } else {
          var p := asks.RecordQueued(r);
        }
      }
      if HasId(View().bids, id) {
        var p :| 0 <= p < |View().bids| && View().bids[p].request.id == id;
        var r := bids.QueuedRecord(p);
      } else if HasId(View().asks, id) {
        var p :| 0 <= p < |View().asks| && View().asks[p].request.id == id;
        var r := asks.QueuedRecord(p);
      }
    }

    /**
     Whenever a shard is back at the same queues, by whatever way, it is back at
     the same ladders, which tell the levels of the maps: prices, contents and totals.
     */
    twostate lemma SameQueuesSameLevels()
      requires old(Structured()) && Structured()
      requires View().bids == old(View()).bids && View().asks == old(View()).asks
      ensures bids.ladder == old(bids.ladder) && asks.ladder == old(asks.ladder)
    {
      hide Flatten, RowsOk, BookSide.EntryOk, BookSide.Holds;
      FlattenInjective(Buy, bids.ladder, old(bids.ladder));
      FlattenInjective(Sell, asks.ladder, old(asks.ladder));
    }

    /** Match the taker against the opposite side, dropping spent makers from the index. */
    method MatchOrder(taker: OrderRecord) returns (fills: seq<FillEvent>)
      requires Structured() && taker !in Repr()
      modifies Repr(), taker`remaining
      ensures Structured() && Repr() <= old(Repr())
      ensures var w := Walk(taker.request.side, taker.request.price, taker.request.id, old(taker.remaining),
                            Queue(old(View()), Opposite(taker.request.side)));
              && fills == w.fills && taker.remaining == w.remaining
              && View() == WithQueue(old(View()), Opposite(taker.request.side), w.left)
    {
      hide Walk, Flatten, BookSide.Valid, IndexOk;
      assert asks.home.Keys + bids.home.Keys == Records();
      if taker.request.side.Buy? {
        fills := ConsumeBook(asks, bids, taker);
      } else {
        fills := ConsumeBook(bids, asks, taker);
      }
      assert asks.home.Keys + bids.home.Keys == Records();
    }

    /** Consume one side; the other one stays as it is, and the index lists what is left of both. */
    method ConsumeBook(theirs: BookSide, mine: BookSide, taker: OrderRecord) returns (fills: seq<FillEvent>)
      requires theirs != mine && theirs.levels !! mine.levels && theirs.home.Keys !! mine.home.Keys
      requires theirs.Valid() && mine.Valid() && theirs.side == Opposite(taker.request.side)
      requires IndexOk(bookOrders, theirs.home.Keys + mine.home.Keys)
      requires taker !in theirs.home && taker !in mine.home && this !in theirs.Repr() && this !in mine.Repr()
      modifies `bookOrders, theirs.Repr(), taker`remaining
      ensures theirs.Valid() && theirs.levels == old(theirs.levels) && theirs.home.Keys <= old(theirs.home.Keys)
      ensures mine.Valid() && mine.levels == old(mine.levels) && mine.home == old(mine.home) && mine.ladder == old(mine.ladder)
      ensures IndexOk(bookOrders, theirs.home.Keys + mine.home.Keys)
      ensures WalkResult(fills, Flatten(theirs.ladder), taker.remaining)
              == Walk(taker.request.side, taker.request.price, taker.request.id, old(taker.remaining), old(Flatten(theirs.ladder)))
    {
      hide Walk, Flatten, BookSide.Valid, IndexOk;
      ghost var a, b := theirs.home.Keys, mine.home.Keys;
      fills, bookOrders := theirs.Consume(taker, bookOrders, a + b);
      SmallerPart(a, b, theirs.home.Keys);
    }

    method RestOrder(record: OrderRecord)
      requires bids.side == Buy && asks.side == Sell && bids != asks
      requires bids.levels !! asks.levels && bids.home.Keys !! asks.home.Keys
      requires bids.Valid() && asks.Valid()
      requires record !in Records() && IndexOk(bookOrders, Records() + {record})
      modifies bids.Repr(), asks.Repr(), record
      ensures Structured() && fresh(Repr() - old(Repr()) - {record})
      ensures View() == WithQueue(old(View()), record.request.side,
                                  Insert(record.request.side, Queue(old(View()), record.request.side), old(record.View())))
    {
      hide Flatten, Insert, BookSide.Valid, IndexOk;
      ghost var all := Records() + {record};
      if record.request.side.Buy? {
        bids.Rest(record);
        assert asks.Valid() && Flatten(asks.ladder) == old(Flatten(asks.ladder));
      } else {
        asks.Rest(record);
        assert bids.Valid() && Flatten(bids.ladder) == old(Flatten(bids.ladder));
      }
      assert Records() == all;
    }

    /** `remove_order_from_book`: unlink a record; the index still names it. */
    method RemoveFromBook(record: OrderRecord) returns (ghost p: nat)
      requires Structured() && record in Records()
      modifies bids.Repr(), asks.Repr()
      ensures bids.Valid() && asks.Valid() && bids.levels == old(bids.levels) && asks.levels == old(asks.levels)
      ensures bids.home.Keys == old(bids.home.Keys) - {record} && asks.home.Keys == old(asks.home.Keys) - {record}
      ensures var side := record.request.side;
              && IsRemoval(Queue(old(View()), side), old(record.View()), p, Queue(View(), side))
              && View() == WithQueue(old(View()), side, Queue(View(), side))
    {
      hide Flatten, BookSide.Valid, IndexOk;
      if record in bids.home {
        bids.SideOf(record);
      } else {
        asks.SideOf(record);
      }
      if record.request.side.Buy? {
        p := bids.Take(record);
      } else {
        p := asks.Take(record);
      }
    }

    /** Unlink a record and erase it from the index. */
    method EraseOrder(record: OrderRecord) returns (ghost p: nat)
      requires Structured() && record in Records()
      modifies Repr()
      ensures Structured() && Repr() <= old(Repr())
      ensures var side := record.request.side;
              && IsRemoval(Queue(old(View()), side), old(record.View()), p, Queue(View(), side))
              && View() == WithQueue(old(View()), side, Queue(View(), side))
    {
      hide Flatten, BookSide.Valid, IndexOk, IsRemoval;
      IndexOkMinusOne(bookOrders, bids.home.Keys, asks.home.Keys, record);
      p := RemoveFromBook(record);
      bookOrders := bookOrders - {Encode(record.request.id)};
    }

    /** Remove the resting order with an id. */
    method RemoveOrder(id: OrderId)
      requires Valid() && Encode(id) in bookOrders
      modifies Repr()
      ensures Valid() && Repr() <= old(Repr())
      ensures Contains(old(View()), id) && View() == RemoveId(old(View()), id)
    {
      hide Flatten, BookSide.Valid, BookInv, IsRemoval;
      var record := bookOrders[Encode(id)];
      EncodeInjective(record.request.id, id);
      ghost var book, o := View(), record.View();
      ghost var p := EraseOrder(record);
      hide Structured;
      RemovalById(book, record.request.side, o, p, Queue(View(), record.request.side));
      RemoveIdKeeps(book, id);
    }

    method StoredRequest(id: OrderId) returns (request: OrderRequest)
      requires Valid() && Encode(id) in bookOrders
      ensures Contains(View(), id) && request == Lookup(View(), id).request
    {
      var record := bookOrders[Encode(id)];
      EncodeInjective(record.request.id, id);
      ghost var p;
      if record in bids.home {
        p := bids.RecordQueued(record);
        RemovalById(View(), Buy, record.View(), p, View().bids[..p] + View().bids[p + 1..]);
      } else {
        p := asks.RecordQueued(record);
        RemovalById(View(), Sell, record.View(), p, View().asks[..p] + View().asks[p + 1..]);
      }
      request := record.request;
    }

    /** The post-only check looks at the best opposite level only. */
    method PostOnlyWouldCross(order: OrderRequest) returns (blocked: bool)
      requires Structured()
      ensures blocked <==> PostOnlyBlocked(View(), order)
    {
      hide Flatten, IndexOk, BookSide.EntryOk, BookSide.Holds;
      blocked := false;
      if order.flags.postOnly {
        if order.side.Buy? {
          asks.BestPrice();
          if asks.entries != [] {
            blocked := Crosses(order.side, order.price, asks.entries[0].price);
          }
        } else {
          bids.BestPrice();
          if bids.entries != [] {
            blocked := Crosses(order.side, order.price, bids.entries[0].price);
          }
        }
      }
    }

    method FillableQuantity(order: OrderRequest) returns (total: int)
      requires Valid()
      ensures total >= order.quantity <==>
              Fillable(order.side, order.price, Queue(View(), Opposite(order.side))) >= order.quantity
    {
      hide Flatten, IndexOk, BookSide.EntryOk, BookSide.Holds, Fillable;
      if order.side.Buy? {
        total := asks.FillableQuantity(order.side, order.price, order.quantity);
      } else {
        total := bids.FillableQuantity(order.side, order.price, order.quantity);
      }
    }

    /** Rest what is left of a taker unless its id is taken. */
    method RestUnlessDuplicate(taker: OrderRecord) returns (inserted: bool)
      requires Structured() && taker !in Records() && taker !in Repr()
      modifies Repr(), taker
      ensures Structured() && fresh(Repr() - old(Repr()) - {taker})
      ensures inserted == !Contains(old(View()), taker.request.id)
      ensures !inserted ==> View() == old(View())
      ensures inserted ==>
                View() == WithQueue(old(View()), taker.request.side,
                                    Insert(taker.request.side, Queue(old(View()), taker.request.side), old(taker.View())))
    {
      hide Flatten, Insert, BookSide.Valid;
      IndexTells(taker.request.id);
      var encoded := Encode(taker.request.id);
      inserted := encoded !in bookOrders;
      if inserted {
        IndexOkPlus(bookOrders, Records(), taker);
        hide IndexOk;
        bookOrders := bookOrders[encoded := taker];
        RestOrder(taker);
      }
    }

    /** The tail of `place_order`: what becomes of the taker after matching. */
    method FinishOrder(taker: OrderRecord, fills: seq<FillEvent>) returns (result: OrderResult)
      requires Structured() && taker !in Repr()
      modifies Repr(), taker
      ensures Structured() && fresh(Repr() - old(Repr()) - {taker})
      ensures Placement(View(), result) == Finish(old(View()), old(taker.View()), fills)
    {
      hide Flatten, Insert, BookSide.Valid, IndexOk;
      if taker.remaining > 0 {
        if taker.request.tif.Ioc? || taker.request.tif.Fok? {
          return OrderResult(true, false, false, 0, fills);
        }
        taker.RefreshDisplay();
        var inserted := RestUnlessDuplicate(taker);
        if !inserted {
          return Rejected(REJECT_DUPLICATE_ORDER_ID, fills);
        }
        result := OrderResult(true, false, true, 0, fills);
      } else {
        result := OrderResult(true, true, false, 0, fills);
      }
    }

    /** Give a new order its arrival number and match it. */
    method MatchNew(order: OrderRequest) returns (taker: OrderRecord, fills: seq<FillEvent>)
      requires Structured()
      modifies Repr()
      ensures Structured() && Repr() <= old(Repr()) && fresh(taker)
      ensures View() == AfterMatch(old(View()), order)
      ensures taker.View() == Unmatched(old(View()), order) && fills == Matched(old(View()), order).fills
    {
      hide Flatten, Walk, BookSide.Valid, IndexOk;
      taker := new OrderRecord(order, nextSequence);
      nextSequence := nextSequence + 1;
      fills := MatchOrder(taker);
    }

    /** The part of `place_order` after its early rejections. */
    method Execute(order: OrderRequest) returns (result: OrderResult)
      requires Valid() && !PostOnlyBlocked(View(), order) && !FokBlocked(View(), order)
      modifies Repr()
      ensures Valid() && fresh(Repr() - old(Repr()))
      ensures Placement(View(), result) == Place(old(View()), order)
    {
      hide Finish, Structured, View, AfterMatch, Unmatched, BookInv;
      PlaceKeeps(View(), order);
      var taker, fills := MatchNew(order);
      result := FinishOrder(taker, fills);
    }

    method PlaceOrder(order: OrderRequest) returns (result: OrderResult)
      requires Valid()
      modifies Repr()
      ensures Valid() && fresh(Repr() - old(Repr()))
      ensures Placement(View(), result) == Place(old(View()), order)
    {
      hide Flatten, Insert, Walk, BookSide.Valid, IndexOk, BookInv, Finish, AfterMatch, Unmatched, Fillable;
      var blocked := PostOnlyWouldCross(order);
      if blocked {
        return Rejected(REJECT_POST_ONLY_WOULD_CROSS, []);
      }
      if order.tif.Fok? {
        var fillable := FillableQuantity(order);
        if fillable < order.quantity {
          return Rejected(REJECT_INSUFFICIENT_LIQUIDITY, []);
        }
      }
      result := Execute(order);
    }
  }

  /** Two disjoint parts, one of which shrinks. */
  lemma SmallerPart<T>(a: set<T>, b: set<T>, a': set<T>)
    requires a !! b && a' <= a
    ensures (a + b) - (a - a') == a' + b && (b + a) - (a - a') == b + a'
  {
  }
}
