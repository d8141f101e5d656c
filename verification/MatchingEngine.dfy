/** The matching engine: one market shard per market id. */
module MatchingEngine {
  import opened Common
  import opened OrderBook
  import opened BookInvariant
  import opened MarketShards

  class MatchingEngine {
    var markets: map<U16, MarketShard>
    ghost var books: Engine
    /** Every object of the engine, with the market it serves. */
    ghost var owner: map<object, U16>

    constructor ()
      ensures Valid() && books == map[] && owner == map[]
    {
      markets, books, owner := map[], map[], map[];
    }

    ghost predicate ShardOk(m: U16)
      reads this, owner.Keys
    {
      && m in markets && m in books
      && Owns(m, markets[m]) && Owns(m, markets[m].bids) && Owns(m, markets[m].asks)
      && (forall o :: o in markets[m].Repr() ==> Owns(m, o))
      && markets[m].Valid() && markets[m].View() == books[m]
    }

    ghost predicate Owns(m: U16, o: object)
      reads this
    {
      o in owner && owner[o] == m
    }

    ghost predicate Valid()
      reads this, owner.Keys
    {
      && this !in owner && books.Keys == markets.Keys
      && (forall m :: m in markets ==> ShardOk(m))
    }

    ghost function Repr(): set<object>
      reads this
    {
      owner.Keys
    }

    ghost function Claim(market: U16, objects: set<object>): (claimed: map<object, U16>)
      reads this
      ensures claimed.Keys == owner.Keys + objects
      ensures forall o :: o in claimed ==> claimed[o] == if o in objects then market else owner[o]
    {
      owner + map o | o in objects :: market
    }

    /** Every market but one is in order; that one has a well-formed shard of its own objects. */
    ghost predicate Pending(market: U16, shard: MarketShard)
      reads this, owner.Keys, shard.Repr()
    {
      && this !in owner && this !in shard.Repr()
      && market in markets && markets[market] == shard && shard.Valid()
      && books.Keys + {market} == markets.Keys
      && (forall m :: m in markets && m != market ==> ShardOk(m))
      && (forall o :: o in shard.Repr() && o in owner ==> owner[o] == market)
    }

    /** Claim all objects of a shard for its market. */
    ghost method ClaimShard(market: U16, shard: MarketShard)
      requires Pending(market, shard)
      modifies `owner
      ensures Pending(market, shard) && owner.Keys == old(owner.Keys) + shard.Repr()
      ensures forall o :: o in shard.Repr() ==> Owns(market, o)
    {
      hide MarketShard.Valid, MarketShard.View, MarketShard.Repr, Claim;
      owner := Claim(market, shard.Repr());
      forall m | m in markets && m != market
        ensures ShardOk(m)
      {
        assert old(ShardOk(m));
      }
    }

    /** Take a shard's book, whose objects are all claimed, into the ghost state. */
    ghost method Publish(market: U16, shard: MarketShard)
      requires Pending(market, shard) && forall o :: o in shard.Repr() ==> Owns(market, o)
      modifies `books
      ensures Valid() && books == old(books)[market := shard.View()]
    {
      hide MarketShard.Valid, MarketShard.View, MarketShard.Repr;
      assert forall m :: m in markets ==> this !in markets[m].Repr();
      books := books[market := shard.View()];
      forall m | m in markets
        ensures ShardOk(m)
      {
        var s := markets[m];
        assert m != market ==> old(ShardOk(m));
        assert old(s.Valid()) && s.Repr() == old(s.Repr()) && this !in s.Repr();
        assert s.Valid() && s.View() == old(s.View());
      }
    }

    /** Bring the ghost state up to date with a shard. */
    ghost method Record(market: U16, shard: MarketShard)
      requires Pending(market, shard)
      modifies `books, `owner
      ensures Valid() && owner.Keys == old(owner.Keys) + shard.Repr()
      ensures books == old(books)[market := shard.View()]
    {
      hide MarketShard.Valid, MarketShard.View, MarketShard.Repr, ShardOk;
      ClaimShard(market, shard);
      Publish(market, shard);
    }

    /** Put a new, empty shard into the map; the ghost state is not brought up to date yet. */
    method NewShard(market: U16) returns (shard: MarketShard)
      requires Valid()
      modifies `markets
      ensures Pending(market, shard) && shard.View() == EMPTY_BOOK
      ensures forall o :: o in shard.Repr() ==> fresh(o)
    {
      hide MarketShard.Valid, MarketShard.View, MarketShard.Repr;
      shard := new MarketShard();
      markets := markets[market := shard];
      forall m | m in markets && m != market
        ensures ShardOk(m)
      {
        assert old(ShardOk(m));
      }
    }

    /** Install a new, empty shard under a market id. */
    method Install(market: U16)
      requires Valid()
      modifies this
      ensures Valid() && old(Repr()) <= Repr()
      ensures forall o :: o in Repr() ==> o in old(Repr()) || fresh(o)
      ensures market in markets && books == old(books)[market := EMPTY_BOOK]
    {
      hide MarketShard.Valid, MarketShard.View, MarketShard.Repr, ShardOk;
      var shard := NewShard(market);
      Record(market, shard);
    }

    method AddMarket(market: U16)
      requires Valid()
      modifies this
      ensures Valid() && forall o :: o in Repr() ==> o in old(Repr()) || fresh(o)
      ensures books == OrderBook.AddMarket(old(books), market)
    {
      hide ShardOk;
      if market !in markets {
        Install(market);
      }
    }

    method ClearMarket(market: U16)
      requires Valid()
      modifies this
      ensures Valid() && forall o :: o in Repr() ==> o in old(Repr()) || fresh(o)
      ensures books == OrderBook.ClearMarket(old(books), market)
    {
      hide ShardOk;
      Install(market);
    }

    method EnsureMarket(market: U16)
      requires Valid()
      modifies this
      ensures Valid() && old(Repr()) <= Repr()
      ensures forall o :: o in Repr() ==> o in old(Repr()) || fresh(o)
      ensures market in markets && books == old(books)[market := BookOf(old(books), market)]
    {
      hide ShardOk;
      if market !in markets {
        Install(market);
      }
    }

    /** Place an order on an existing shard; the ghost state is not brought up to date yet. */
    method PlaceInShard(market: U16, order: OrderRequest) returns (result: OrderResult)
      requires Valid() && market in markets
      modifies Repr()
      ensures Pending(market, markets[market])
      ensures forall o :: o in markets[market].Repr() ==> o in old(Repr()) || fresh(o)
      ensures Placement(markets[market].View(), result) == Place(books[market], order)
    {
      hide MarketShard.Valid, MarketShard.Repr, MarketShard.View, Place;
      var shard := markets[market];
      assert ShardOk(market);
      assert forall o :: o in shard.Repr() ==> o in owner;
      result := shard.PlaceOrder(order);
      forall m | m in markets && m != market
        ensures ShardOk(m)
      {
        assert old(ShardOk(m));
      }
    }

    method PlaceOn(market: U16, order: OrderRequest) returns (result: OrderResult)
      requires Valid() && market in markets
      modifies this, Repr()
      ensures Valid() && forall o :: o in Repr() ==> o in old(Repr()) || fresh(o)
      ensures var p := Place(old(books)[market], order);
              result == p.result && books == old(books)[market := p.book]
      ensures markets == old(markets)
    {
      hide MarketShard.Valid, MarketShard.Repr, MarketShard.View, Place, ShardOk;
      result := PlaceInShard(market, order);
      Record(market, markets[market]);
    }

    /** Remove a resting order from an existing shard; the ghost state is not brought up to date yet. */
    method RemoveInShard(id: OrderId)
      requires Valid() && id.market in markets && Encode(id) in markets[id.market].bookOrders
      modifies Repr()
      ensures Pending(id.market, markets[id.market])
      ensures forall o :: o in markets[id.market].Repr() ==> o in old(Repr()) || fresh(o)
      ensures Contains(books[id.market], id) && markets[id.market].View() == RemoveId(books[id.market], id)
    {
      hide MarketShard.Valid, MarketShard.Repr, MarketShard.View, RemoveId;
      var shard := markets[id.market];
      assert ShardOk(id.market);
      assert forall o :: o in shard.Repr() ==> o in owner;
      shard.RemoveOrder(id);
      forall m | m in markets && m != id.market
        ensures ShardOk(m)
      {
        assert old(ShardOk(m));
      }
    }

    method RemoveFrom(id: OrderId)
      requires Valid() && id.market in markets && Encode(id) in markets[id.market].bookOrders
      modifies this, Repr()
      ensures Valid() && forall o :: o in Repr() ==> o in old(Repr()) || fresh(o)
      ensures Contains(old(books)[id.market], id)
      ensures books == old(books)[id.market := RemoveId(old(books)[id.market], id)]
      ensures markets == old(markets)
    {
      hide MarketShard.Valid, MarketShard.Repr, MarketShard.View, RemoveId, ShardOk;
      RemoveInShard(id);
      Record(id.market, markets[id.market]);
    }

    method Submit(req: OrderRequest) returns (result: OrderResult)
      requires Valid()
      modifies this, Repr()
      ensures Valid() && forall o :: o in Repr() ==> o in old(Repr()) || fresh(o)
      ensures (books, result) == OrderBook.Submit(old(books), req)
    {
      hide ShardOk, Place;
      if req.quantity <= 0 {
        return Rejected(REJECT_INVALID_QUANTITY, []);
      }
      if req.flags.iceberg {
        if req.displayQuantity <= 0 || req.displayQuantity > req.quantity {
          return Rejected(REJECT_INVALID_DISPLAY_QUANTITY, []);
        }
      }
      EnsureMarket(req.id.market);
      result := PlaceOn(req.id.market, req);
      Overwrite(old(books), req.id.market, BookOf(old(books), req.id.market), books[req.id.market]);
    }

    /** The index of a shard knows exactly the ids of its book. */
    lemma KnowsIds(id: OrderId)
      requires Valid() && id.market in markets
      ensures Encode(id) in markets[id.market].bookOrders <==> Contains(books[id.market], id)
    {
      assert ShardOk(id.market);
      markets[id.market].IndexTells(id);
    }

    method Cancel(id: OrderId) returns (result: CancelResult)
      requires Valid()
      modifies this, Repr()
      ensures Valid() && forall o :: o in Repr() ==> o in old(Repr()) || fresh(o)
      ensures (books, result) == OrderBook.Cancel(old(books), id)
    {
      hide ShardOk;
      if id.market !in markets {
        return CancelResult(false, REJECT_UNKNOWN_MARKET);
      }
      KnowsIds(id);
      if Encode(id) !in markets[id.market].bookOrders {
        return CancelResult(false, REJECT_ORDER_NOT_FOUND);
      }
      RemoveFrom(id);
      return CancelResult(true, 0);
    }

    /** The request stored with a resting order. */
    method StoredRequest(id: OrderId) returns (request: OrderRequest)
      requires Valid() && id.market in markets && Encode(id) in markets[id.market].bookOrders
      ensures Contains(books[id.market], id) && request == Lookup(books[id.market], id).request
    {
      assert ShardOk(id.market);
      request := markets[id.market].StoredRequest(id);
    }

    method Replace(req: ReplaceRequest) returns (result: ReplaceResult)
      requires Valid()
      modifies this, Repr()
      ensures Valid() && forall o :: o in Repr() ==> o in old(Repr()) || fresh(o)
      ensures (books, result) == OrderBook.Replace(old(books), req)
    {
      hide ShardOk, Place, RemoveId, Lookup;
      var market := req.id.market;
      if market !in markets {
        return ReplaceResult(false, false, REJECT_UNKNOWN_MARKET, []);
      }
      KnowsIds(req.id);
      if Encode(req.id) !in markets[market].bookOrders {
        return ReplaceResult(false, false, REJECT_ORDER_NOT_FOUND, []);
      }
      var request := StoredRequest(req.id);
      RemoveFrom(req.id);
      var replacement := OrderRequest(req.id, request.account, request.side, req.newQuantity, req.newPrice,
                                      req.newDisplayQuantity, req.newTif, req.newFlags);
      var placed := PlaceOn(market, replacement);
      Overwrite(old(books), market, RemoveId(old(books)[market], req.id), books[market]);
      result := ReplaceResult(placed.accepted, placed.resting, placed.rejectCode, placed.fills);
    }
  }

  lemma Overwrite(e: Engine, m: U16, a: Book, b: Book)
    ensures e[m := a][m := b] == e[m := b]
  {
  }
}
