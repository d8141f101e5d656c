/** The answers and the visible state of the matching engine, said in terms of the request and the book before the call. */
module BookAnswers {
  import opened Common
  import opened OrderBook
  import opened Ladder
  import opened BookInvariant
  import opened BookTheorems
  import opened BookRuns

  // ----- prices -----

  /** The price is one that an order of this side and limit may trade at. */
  predicate WithinLimit(side: Side, limit: int, price: int) {
    match side case Buy => price <= limit case Sell => limit <= price
  }

  /** No fill is at a price worse than the order's limit. */
  lemma FillsWithinLimit(b: Book, req: OrderRequest)
    requires BookInv(b)
    ensures forall k :: 0 <= k < |Place(b, req).result.fills| ==>
              WithinLimit(req.side, req.price, Place(b, req).result.fills[k].price)
  {
    var makers := Queue(b, Opposite(req.side));
    MakersCross(b, req);
    RejectionExact(b, req);
    if !PostOnlyBlocked(b, req) && !FokBlocked(b, req) {
      hide Walk, BookInv, CrossingFirst;
      WalkByPriority(TakerOf(req), makers);
    }
  }

  /** Whatever is left of an order, no maker within its limit is left. */
  lemma NothingLeftWithinLimit(b: Book, req: OrderRequest)
    requires BookInv(b) && Matched(b, req).remaining > 0
    ensures forall k :: 0 <= k < |Matched(b, req).left| ==>
              !WithinLimit(req.side, req.price, Matched(b, req).left[k].request.price)
  {
    LeftoverUncrossed(b, req);
  }

  /** In every reachable state bids fall and asks rise in price from the front, and within a price the earlier order is first. */
  lemma QueuesInOrder(ops: seq<Operation>, m: U16, i: nat, j: nat)
    requires m in Run(map[], ops) && i < j
    ensures var b := Run(map[], ops)[m];
            && (j < |b.bids| ==>
                  || b.bids[i].request.price > b.bids[j].request.price
                  || (b.bids[i].request.price == b.bids[j].request.price && b.bids[i].fifoSeq < b.bids[j].fifoSeq))
            && (j < |b.asks| ==>
                  || b.asks[i].request.price < b.asks[j].request.price
                  || (b.asks[i].request.price == b.asks[j].request.price && b.asks[i].fifoSeq < b.asks[j].fifoSeq))
  {
    RunKeeps(ops);
    var b := Run(map[], ops)[m];
    assert BookInv(b);
    assert j < |b.bids| ==> Before(Buy, b.bids[i], b.bids[j]);
    assert j < |b.asks| ==> Before(Sell, b.asks[i], b.asks[j]);
  }

  // ----- what a placement answers -----

  /** Some order of the other side rests within the limit. */
  ghost predicate MeetsMaker(b: Book, req: OrderRequest) {
    var makers := Queue(b, Opposite(req.side));
    exists k :: 0 <= k < |makers| && WithinLimit(req.side, req.price, makers[k].request.price)
  }

  lemma PostOnlyBlockedExact(b: Book, req: OrderRequest)
    requires BookInv(b)
    ensures PostOnlyBlocked(b, req) <==> req.flags.postOnly && MeetsMaker(b, req)
  {
    var makers := Queue(b, Opposite(req.side));
    MakersCross(b, req);
    if req.flags.postOnly && MeetsMaker(b, req) {
      var k :| 0 <= k < |makers| && WithinLimit(req.side, req.price, makers[k].request.price);
      assert Crosses(req.side, req.price, makers[k].request.price);
    }
    if PostOnlyBlocked(b, req) {
      assert WithinLimit(req.side, req.price, makers[0].request.price);
    }
  }

  /** Each reject code and each flag of a placement's answer, told from the request and the book before the call. */
  lemma PlaceAnswer(b: Book, req: OrderRequest)
    requires BookInv(b)
    ensures var r := Place(b, req).result;
            var fillable := Fillable(req.side, req.price, Queue(b, Opposite(req.side)));
            var crossing := req.flags.postOnly && MeetsMaker(b, req);
            var short := req.tif.Fok? && fillable < req.quantity;
            && (r.rejectCode == 1003 <==> crossing)
            && (r.rejectCode == 1002 <==> !crossing && short)
            && (r.rejectCode == 1006 <==> !crossing && !short && DuplicateLeftover(b, req))
            && (r.rejectCode == 0 <==> r.accepted) && r.rejectCode in {0, 1002, 1003, 1006}
            && (r.fullyFilled <==> r.accepted && req.quantity <= fillable)
            && (r.resting <==> r.accepted && fillable < req.quantity && !req.tif.Ioc? && !req.tif.Fok?)
            && Place(b, req).book.nextSequence == b.nextSequence + (if r.rejectCode in {1002, 1003} then 0 else 1)
  {
    var makers := Queue(b, Opposite(req.side));
    PostOnlyBlockedExact(b, req);
    RejectionExact(b, req);
    LeftoverExact(b, req);
    MakersCross(b, req);
    FillableNonNegative(req.side, req.price, makers);
    MatchCounts(b, req);
    hide Walk, Insert, Fillable, BookInv, PostOnlyBlocked, DuplicateLeftover, MeetsMaker, CrossingFirst, AfterMatch, Contains;
  }

  lemma MatchCounts(b: Book, req: OrderRequest)
    ensures AfterMatch(b, req).nextSequence == b.nextSequence + 1
  {
  }

  /** An order that comes to rest is found under its id, with its own terms, what it could not trade, and the next arrival number. */
  lemma RestedOrder(b: Book, req: OrderRequest)
    requires BookInv(b) && Place(b, req).result.resting
    ensures var b' := Place(b, req).book;
            && Contains(b', req.id) && b'.nextSequence == b.nextSequence + 1
            && var o := Lookup(b', req.id);
               && o.request == req && o.fifoSeq == b.nextSequence
               && o.remaining == req.quantity - Fillable(req.side, req.price, Queue(b, Opposite(req.side)))
  {
    hide Insert, Walk, Place, Contains, RemoveId, BookInv, Lookup, Fillable, CrossingFirst;
    var mine, makers := Queue(b, req.side), Queue(b, Opposite(req.side));
    PlaceRests(b, req);
    PlaceAnswer(b, req);
    PlaceKeeps(b, req);
    MakersCross(b, req);
    if req.quantity >= 0 {
      WalkTradesFillable(req.side, req.price, req.id, req.quantity, makers);
    } else {
      FillableNonNegative(req.side, req.price, makers);
    }
    var o := Refreshed(Unmatched(b, req));
    var p := InsertionPoint(req.side, mine, o);
    InsertShape(req.side, mine, o);
    InsertedThenRemoved(mine, p, o);
    RemovalById(Place(b, req).book, req.side, o, p, mine);
  }

  /** What `submit` refuses by the request alone, leaving every book as it was; everything else is placed in its market. */
  lemma SubmitAnswer(e: Engine, req: OrderRequest)
    ensures var (e', r) := Submit(e, req);
            var badDisplay := req.flags.iceberg && !(0 < req.displayQuantity <= req.quantity);
            && (req.quantity <= 0 ==> (e', r) == (e, OrderResult(false, false, false, 1005, [])))
            && (req.quantity > 0 && badDisplay ==> (e', r) == (e, OrderResult(false, false, false, 1007, [])))
            && (req.quantity > 0 && !badDisplay ==>
                  && e'.Keys == e.Keys + {req.id.market} && e' - {req.id.market} == e - {req.id.market}
                  && Placement(e'[req.id.market], r) == Place(if req.id.market in e then e[req.id.market] else Book([], [], 1), req))
  {
    hide Place;
  }

  /** Every operation leaves the books of all other markets alone. */
  lemma OtherBooksUntouched(e: Engine, op: Operation, m: U16)
    requires match op
             case Submitting(order) => order.id.market != m
             case Cancelling(id) => id.market != m
             case Replacing(req) => req.id.market != m
             case Adding(market) => market != m
             case Clearing(market) => market != m
    ensures (m in Step(e, op) <==> m in e) && BookOf(Step(e, op), m) == BookOf(e, m)
  {
    hide Place, Contains, RemoveId;
  }

  /** Adding a market changes no book that is there; clearing one leaves it empty. */
  lemma AddAndClear(e: Engine, m: U16)
    ensures m in AddMarket(e, m) && AddMarket(e, m) - {m} == e - {m} && BookOf(AddMarket(e, m), m) == BookOf(e, m)
    ensures BookOf(ClearMarket(e, m), m) == Book([], [], 1) && m in ClearMarket(e, m)
  {
  }

  // ----- cancel and replace -----

  /** The order of an id is the same in both books, or in neither. */
  ghost predicate SameOrder(b: Book, c: Book, id: OrderId) {
    && (Contains(b, id) <==> Contains(c, id))
    && (Contains(b, id) ==> Lookup(b, id) == Lookup(c, id))
  }

  lemma {:induction false} RemovalKeepsOthers(b: Book, id: OrderId, other: OrderId)
    requires BookInv(b) && other != id
    ensures SameOrder(b, RemoveId(b, id), other)
  {
    WithoutKeepsOthers(b.bids, id, other);
    WithoutKeepsOthers(b.asks, id, other);
  }

  lemma WithoutKeepsOthers(q: seq<Order>, id: OrderId, other: OrderId)
    requires other != id && DistinctIds(q)
    ensures HasId(Without(q, id), other) <==> HasId(q, other)
    ensures HasId(q, other) ==> Without(q, id)[IndexOf(Without(q, id), other)] == q[IndexOf(q, other)]
  {
    if HasId(q, id) {
      var i, r := IndexOf(q, id), Without(q, id);
      forall k | 0 <= k < |r|
        ensures r[k] == q[if k < i then k else k + 1]
      {
      }
      if HasId(q, other) {
        var j := IndexOf(q, other);
        assert r[if j < i then j else j - 1] == q[j];
      }
    }
  }

  /**
   A cancel reports success exactly when the id rests in its market.  Then
   exactly that order, with what remained of it, is gone; otherwise all books
   are as they were, and the answer says what was unknown.
   */
  lemma CancelAnswer(e: Engine, id: OrderId)
    requires EngineInv(e)
    ensures var (e', r) := Cancel(e, id);
            var rests := id.market in e && Contains(e[id.market], id);
            && (r.cancelled <==> rests)
            && r.rejectCode == (if rests then 0 else if id.market in e then 1004 else 1001)
            && (!rests ==> e' == e)
            && (rests ==>
                  var b, b' := e[id.market], BookOf(e', id.market);
                  && e'.Keys == e.Keys && e' - {id.market} == e - {id.market}
                  && !Contains(b', id) && (forall other :: other != id ==> SameOrder(b, b', other))
                  && Resting(b') == Resting(b) - Lookup(b, id).remaining && b'.nextSequence == b.nextSequence)
  {
    hide BookInv, RemoveId, Contains, Lookup, Resting, InMarket, SameOrder;
    if id.market in e && Contains(e[id.market], id) {
      var b := e[id.market];
      RemoveIdKeeps(b, id);
      RemovalConserves(b, id);
      RemovalKeepsCounter(b, id);
      forall other | other != id
        ensures SameOrder(b, RemoveId(b, id), other)
      {
        RemovalKeepsOthers(b, id, other);
      }
    }
  }

  lemma RemovalKeepsCounter(b: Book, id: OrderId)
    ensures RemoveId(b, id).nextSequence == b.nextSequence
  {
  }

  /** The codes of a replace: what was unknown, or what its placement was refused for. */
  lemma ReplaceAnswer(e: Engine, req: ReplaceRequest)
    requires EngineInv(e)
    ensures var r := Replace(e, req).1;
            var rests := req.id.market in e && Contains(e[req.id.market], req.id);
            && (r.rejectCode == 1001 <==> req.id.market !in e)
            && (r.rejectCode == 1004 <==> req.id.market in e && !rests)
            && (r.rejectCode == 0 <==> r.accepted)
            && (rests ==>
                  var resting := Lookup(e[req.id.market], req.id).request;
                  var replacement := OrderRequest(req.id, resting.account, resting.side, req.newQuantity, req.newPrice,
                                                  req.newDisplayQuantity, req.newTif, req.newFlags);
                  var placed := Place(RemoveId(e[req.id.market], req.id), replacement).result;
                  r == ReplaceResult(placed.accepted, placed.resting, placed.rejectCode, placed.fills))
  {
    hide Place, BookInv, RemoveId, Contains, Lookup, InMarket;
    if req.id.market in e && Contains(e[req.id.market], req.id) {
      var b := e[req.id.market];
      RemoveIdKeeps(b, req.id);
      PlaceAnswer(RemoveId(b, req.id), ReplacementRequest(Lookup(b, req.id), req));
    }
  }

  // ----- what resting orders show -----

  /** The record's display size is the one its request asked for. */
  predicate Sized(o: Order) {
    o.displaySize == if o.request.flags.hidden then 0 else if o.request.flags.iceberg then o.request.displayQuantity else o.request.quantity
  }

  ghost predicate AllSized(q: seq<Order>) {
    forall k :: 0 <= k < |q| ==> Sized(q[k])
  }

  ghost predicate BookSized(b: Book) {
    AllSized(b.bids) && AllSized(b.asks)
  }

  lemma {:induction false} WalkKeepsSizes(t: Taker, makers: seq<Order>)
    requires AllSized(makers)
    ensures AllSized(Walk(t.side, t.limit, t.id, t.quantity, makers).left)
    decreases |makers|
  {
    if t.quantity > 0 && makers != [] && Crosses(t.side, t.limit, makers[0].request.price)
       && Min(t.quantity, makers[0].remaining) == makers[0].remaining {
      WalkKeepsSizes(t.(quantity := t.quantity - makers[0].remaining), makers[1..]);
    }
  }

  lemma PlaceKeepsSizes(b: Book, req: OrderRequest)
    requires BookSized(b)
    ensures BookSized(Place(b, req).book)
  {
    WalkKeepsSizes(TakerOf(req), Queue(b, Opposite(req.side)));
    hide Walk, Insert, Fillable;
    if Place(b, req).result.resting {
      PlaceRests(b, req);
      InsertMembers(req.side, Queue(b, req.side), Refreshed(Unmatched(b, req)));
    }
  }

  lemma RemovalKeepsSizes(b: Book, id: OrderId)
    requires BookSized(b)
    ensures BookSized(RemoveId(b, id))
  {
  }

  lemma EmptySized()
    ensures BookSized(EMPTY_BOOK)
  {
  }

  lemma StepKeepsSizes(e: Engine, op: Operation, m: U16)
    requires BookSized(BookOf(e, m))
    ensures BookSized(BookOf(Step(e, op), m))
  {
    hide Place, BookSized, RemoveId, Contains, Lookup;
    var b := BookOf(e, m);
    EmptySized();
    match op
    case Submitting(order) => PlaceKeepsSizes(b, order);
    case Cancelling(id) => RemovalKeepsSizes(b, id);
    case Replacing(req) =>
      if req.id.market == m && m in e && Contains(b, req.id) {
        RemovalKeepsSizes(b, req.id);
        PlaceKeepsSizes(RemoveId(b, req.id), ReplacementRequest(Lookup(b, req.id), req));
      }
    case Adding(_) =>
    case Clearing(_) =>
  }

  lemma {:induction false} RunKeepsSizes(ops: seq<Operation>, m: U16)
    ensures BookSized(BookOf(Run(map[], ops), m))
  {
    hide BookSized, Step;
    if ops == [] {
      EmptySized();
    } else {
      RunKeepsSizes(ops[..|ops| - 1], m);
      StepKeepsSizes(Run(map[], ops[..|ops| - 1]), ops[|ops| - 1], m);
    }
  }

  /**
   In every reachable state a hidden order shows nothing, an iceberg order the
   display quantity of its request or all that remains, whichever is less, and
   every other order all that remains.
   */
  lemma RestingDisplay(ops: seq<Operation>, m: U16, side: Side, k: nat)
    requires m in Run(map[], ops) && k < |Queue(Run(map[], ops)[m], side)|
    ensures var o := Queue(Run(map[], ops)[m], side)[k];
            && o.remaining > 0
            && (o.request.flags.hidden ==> o.displayRemaining == 0)
            && (!o.request.flags.hidden && o.request.flags.iceberg && o.request.displayQuantity > 0 ==>
                  o.displayRemaining == Min(o.request.displayQuantity, o.remaining))
            && (!o.request.flags.hidden && !o.request.flags.iceberg ==> o.displayRemaining == o.remaining)
  {
    RunKeepsSizes(ops, m);
    RunKeeps(ops);
    var b := Run(map[], ops)[m];
    SideInv(b, side);
    assert OrderOk(side, Queue(b, side)[k], b.nextSequence);
    assert Sized(Queue(b, side)[k]);
  }
}
