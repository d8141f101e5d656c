/** Whole runs of the matching engine: what holds in every reachable state, and where quantity goes. */
module BookRuns {
  import opened Common
  import opened OrderBook
  import opened Ladder
  import opened BookInvariant
  import opened BookTheorems

  datatype Operation =
    | Submitting(order: OrderRequest)
    | Cancelling(id: OrderId)
    | Replacing(replacement: ReplaceRequest)
    | Adding(market: U16)
    | Clearing(market: U16)

  function Step(e: Engine, op: Operation): Engine {
    match op
    case Submitting(order) => Submit(e, order).0
    case Cancelling(id) => Cancel(e, id).0
    case Replacing(req) => Replace(e, req).0
    case Adding(market) => AddMarket(e, market)
    case Clearing(market) => ClearMarket(e, market)
  }

  function Run(e: Engine, ops: seq<Operation>): Engine {
    if ops == [] then e else Step(Run(e, ops[..|ops| - 1]), ops[|ops| - 1])
  }

  /** Every order of the book belongs to this market. */
  ghost predicate InMarket(b: Book, m: U16) {
    && (forall i :: 0 <= i < |b.bids| ==> b.bids[i].request.id.market == m)
    && (forall i :: 0 <= i < |b.asks| ==> b.asks[i].request.id.market == m)
  }

  ghost predicate EngineInv(e: Engine) {
    forall m :: m in e ==> BookInv(e[m]) && InMarket(e[m], m)
  }

  lemma PlaceInMarket(b: Book, req: OrderRequest)
    requires BookInv(b) && InMarket(b, req.id.market)
    ensures InMarket(Place(b, req).book, req.id.market)
  {
    MatchKeeps(b, req);
    var side := Opposite(req.side);
    var left, makers := Queue(AfterMatch(b, req), side), Queue(b, side);
    forall i | 0 <= i < |left|
      ensures left[i].request.id.market == req.id.market
    {
      assert HasRequest(makers, left[i].request);
    }
    if Place(b, req).result.resting {
      PlaceRests(b, req);
      InsertMembers(req.side, Queue(b, req.side), Refreshed(Unmatched(b, req)));
    }
  }

  lemma {:induction false} InsertMembers(side: Side, q: seq<Order>, o: Order)
    ensures forall i :: 0 <= i < |Insert(side, q, o)| ==> Insert(side, q, o)[i] == o || Insert(side, q, o)[i] in q
  {
    InsertShape(side, q, o);
    var p := InsertionPoint(side, q, o);
    forall i | 0 <= i < |Insert(side, q, o)|
      ensures Insert(side, q, o)[i] == o || Insert(side, q, o)[i] in q
    {
      InsertedAt(q, p, o, i);
    }
  }

  lemma RemoveInMarket(b: Book, id: OrderId, m: U16)
    requires InMarket(b, m)
    ensures InMarket(RemoveId(b, id), m)
  {
  }

  lemma StepKeeps(e: Engine, op: Operation)
    requires EngineInv(e)
    ensures EngineInv(Step(e, op))
  {
    match op
    case Submitting(order) =>
      PlaceKeeps(BookOf(e, order.id.market), order);
      PlaceInMarket(BookOf(e, order.id.market), order);
    case Cancelling(id) =>
      if id.market in e {
        RemoveIdKeeps(e[id.market], id);
        RemoveInMarket(e[id.market], id, id.market);
      }
    case Replacing(req) =>
      var m := req.id.market;
      if m in e && Contains(e[m], req.id) {
        RemoveIdKeeps(e[m], req.id);
        RemoveInMarket(e[m], req.id, m);
        var order := ReplacementRequest(Lookup(e[m], req.id), req);
        PlaceKeeps(RemoveId(e[m], req.id), order);
        PlaceInMarket(RemoveId(e[m], req.id), order);
      }
    case Adding(_) =>
    case Clearing(_) =>
  }

  /** The invariant holds in every state that the engine can reach. */
  lemma {:induction false} RunKeeps(ops: seq<Operation>)
    ensures EngineInv(Run(map[], ops))
  {
    if ops != [] {
      RunKeeps(ops[..|ops| - 1]);
      StepKeeps(Run(map[], ops[..|ops| - 1]), ops[|ops| - 1]);
    }
  }

  /** In every reachable state the best bid is below the best ask. */
  lemma NeverCrossed(ops: seq<Operation>, m: U16)
    requires m in Run(map[], ops)
    ensures var b := Run(map[], ops)[m];
            b.bids != [] && b.asks != [] ==> b.bids[0].request.price < b.asks[0].request.price
  {
    RunKeeps(ops);
  }

  // ----- conservation of quantity -----

  function Resting(b: Book): int {
    SumRemaining(b.bids) + SumRemaining(b.asks)
  }

  datatype Flow = Flow(entered: int, traded: int, removed: int, discarded: int)

  function Plus(a: Flow, b: Flow): Flow {
    Flow(a.entered + b.entered, a.traded + b.traded, a.removed + b.removed, a.discarded + b.discarded)
  }

  const NO_FLOW := Flow(0, 0, 0, 0)

  /** The positive quantity that reaches matching, what it trades, and what is thrown away. */
  function PlaceFlow(b: Book, req: OrderRequest): Flow {
    if PostOnlyBlocked(b, req) || FokBlocked(b, req) then NO_FLOW
    else
      var r := Place(b, req).result;
      var entered, traded := Max(req.quantity, 0), SumQuantity(r.fills);
      Flow(entered, traded, 0, if r.resting then 0 else entered - traded)
  }

  function RemovalFlow(b: Book, id: OrderId): Flow {
    if Contains(b, id) then NO_FLOW.(removed := Lookup(b, id).remaining) else NO_FLOW
  }

  /** What one operation does to the quantities of one market. */
  function StepFlow(e: Engine, op: Operation, m: U16): Flow {
    var b := BookOf(e, m);
    match op
    case Submitting(order) =>
      if order.id.market == m && Admissible(order) then PlaceFlow(b, order) else NO_FLOW
    case Cancelling(id) =>
      if id.market == m then RemovalFlow(b, id) else NO_FLOW
    case Replacing(req) =>
      if req.id.market == m && Contains(b, req.id) then
        Plus(RemovalFlow(b, req.id), PlaceFlow(RemoveId(b, req.id), ReplacementRequest(Lookup(b, req.id), req)))
      else NO_FLOW
    case Adding(_) => NO_FLOW
    case Clearing(market) => if market == m then NO_FLOW.(removed := Resting(b)) else NO_FLOW
  }

  function RunFlow(ops: seq<Operation>, m: U16): Flow {
    if ops == [] then NO_FLOW
    else
      var before := ops[..|ops| - 1];
      Plus(RunFlow(before, m), StepFlow(Run(map[], before), ops[|ops| - 1], m))
  }

  /** A walk takes from the queue exactly what it trades. */
  lemma {:induction false} WalkConserves(side: Side, limit: int, taker: OrderId, quantity: int, makers: seq<Order>)
    ensures var w := Walk(side, limit, taker, quantity, makers);
            && SumRemaining(makers) == SumRemaining(w.left) + SumQuantity(w.fills)
            && w.remaining == quantity - SumQuantity(w.fills)
    decreases |makers|
  {
    var w := Walk(side, limit, taker, quantity, makers);
    if quantity > 0 && makers != [] && Crosses(side, limit, makers[0].request.price) {
      var traded := Min(quantity, makers[0].remaining);
      if traded == makers[0].remaining {
        WalkConserves(side, limit, taker, quantity - traded, makers[1..]);
        assert w.fills[1..] == Walk(side, limit, taker, quantity - traded, makers[1..]).fills;
      } else {
        assert w.left[1..] == makers[1..] && w.fills[1..] == [];
      }
    }
  }

  lemma InsertConserves(side: Side, q: seq<Order>, o: Order)
    ensures SumRemaining(Insert(side, q, o)) == SumRemaining(q) + o.remaining
  {
    InsertShape(side, q, o);
    var p := InsertionPoint(side, q, o);
    assert q == q[..p] + q[p..];
    SumsAppend(q[..p], q[p..]);
    assert Inserted(q, p, o) == q[..p] + ([o] + q[p..]);
    SumsAppend(q[..p], [o] + q[p..]);
    assert ([o] + q[p..])[1..] == q[p..];
  }

  /** The ledger of one placement. */
  lemma PlaceConserves(b: Book, req: OrderRequest)
    requires BookInv(b)
    ensures var f := PlaceFlow(b, req);
            && f.entered + Resting(b) == 2 * f.traded + Resting(Place(b, req).book) + f.discarded
            && f.traded >= 0 && f.discarded >= 0 && f.removed == 0
            && (f.discarded > 0 ==> req.tif.Ioc? || DuplicateLeftover(b, req))
  {
    hide Walk, Insert, SumRemaining, SumQuantity, Fillable, BookInv;
    RejectionExact(b, req);
    if !PostOnlyBlocked(b, req) && !FokBlocked(b, req) {
      MatchConserves(b, req);
      if req.tif.Fok? {
        FokAllOrNothing(b, req);
      }
      if Place(b, req).result.resting {
        InsertConserves(req.side, Queue(b, req.side), Refreshed(Unmatched(b, req)));
      }
    }
  }

  lemma MatchConserves(b: Book, req: OrderRequest)
    requires BookInv(b)
    ensures var w := Matched(b, req);
            && Resting(b) == Resting(AfterMatch(b, req)) + SumQuantity(w.fills)
            && w.remaining == req.quantity - SumQuantity(w.fills)
            && 0 <= SumQuantity(w.fills) <= Max(req.quantity, 0)
  {
    hide Walk, SumRemaining, SumQuantity;
    var makers := Queue(b, Opposite(req.side));
    assert forall k :: 0 <= k < |makers| ==> OrderOk(Opposite(req.side), makers[k], b.nextSequence);
    WalkConserves(req.side, req.price, req.id, req.quantity, makers);
    WalkNoMore(req.side, req.price, req.id, req.quantity, makers);
  }

  lemma {:induction false} WalkNoMore(side: Side, limit: int, taker: OrderId, quantity: int, makers: seq<Order>)
    requires forall k :: 0 <= k < |makers| ==> makers[k].remaining > 0
    ensures 0 <= SumQuantity(Walk(side, limit, taker, quantity, makers).fills) <= Max(quantity, 0)
    decreases |makers|
  {
    var w := Walk(side, limit, taker, quantity, makers);
    if quantity > 0 && makers != [] && Crosses(side, limit, makers[0].request.price) {
      var traded := Min(quantity, makers[0].remaining);
      if traded == makers[0].remaining {
        WalkNoMore(side, limit, taker, quantity - traded, makers[1..]);
        assert w.fills[1..] == Walk(side, limit, taker, quantity - traded, makers[1..]).fills;
      } else {
        assert w.fills[1..] == [];
      }
    }
  }

  lemma RemovalConserves(b: Book, id: OrderId)
    requires BookInv(b)
    ensures Resting(b) == Resting(RemoveId(b, id)) + RemovalFlow(b, id).removed
    ensures var f := RemovalFlow(b, id); f == NO_FLOW.(removed := f.removed) && f.removed >= 0
    ensures !Contains(b, id) ==> RemovalFlow(b, id) == NO_FLOW
  {
    if HasId(b.bids, id) {
      var p := IndexOf(b.bids, id);
      SumsRemoved(b.bids, p);
      assert OrderOk(Buy, b.bids[p], b.nextSequence);
    } else if HasId(b.asks, id) {
      var p := IndexOf(b.asks, id);
      SumsRemoved(b.asks, p);
      assert OrderOk(Sell, b.asks[p], b.nextSequence);
    }
  }

  lemma EmptyRests()
    ensures Resting(EMPTY_BOOK) == 0
  {
  }

  lemma StepConserves(e: Engine, op: Operation, m: U16)
    requires EngineInv(e)
    ensures var f := StepFlow(e, op, m);
            && f.entered + Resting(BookOf(e, m)) == 2 * f.traded + Resting(BookOf(Step(e, op), m)) + f.removed + f.discarded
            && f.traded >= 0 && f.removed >= 0 && f.discarded >= 0
  {
    hide Place, PlaceFlow, RemovalFlow, RemoveId, Lookup, SumRemaining;
    var b := BookOf(e, m);
    assert BookInv(b);
    assert Resting(EMPTY_BOOK) == 0 by { EmptyRests(); }
    match op
    case Submitting(order) =>
      PlaceConserves(b, order);
    case Cancelling(id) =>
      RemovalConserves(b, id);
    case Replacing(req) =>
      if Contains(b, req.id) {
        RemovalConserves(b, req.id);
        RemoveIdKeeps(b, req.id);
        PlaceConserves(RemoveId(b, req.id), ReplacementRequest(Lookup(b, req.id), req));
      }
    case Adding(_) =>
    case Clearing(_) =>
      assert forall k :: 0 <= k < |b.bids| ==> OrderOk(Buy, b.bids[k], b.nextSequence);
      assert forall k :: 0 <= k < |b.asks| ==> OrderOk(Sell, b.asks[k], b.nextSequence);
      SumNonNegative(b.bids);
      SumNonNegative(b.asks);
  }

  /**
   Over every run: the quantity that reached matching is accounted for twice by
   trades and otherwise by what rests, what was taken out and what was discarded.
   */
  lemma {:induction false} RunConserves(ops: seq<Operation>, m: U16)
    ensures var f := RunFlow(ops, m);
            f.entered == 2 * f.traded + Resting(BookOf(Run(map[], ops), m)) + f.removed + f.discarded
  {
    if ops != [] {
      var before := ops[..|ops| - 1];
      RunConserves(before, m);
      RunKeeps(before);
      StepConserves(Run(map[], before), ops[|ops| - 1], m);
    }
  }

  // ----- each maker pays for its own fills -----

  function FilledFor(fills: seq<FillEvent>, id: OrderId): int {
    if fills == [] then 0
    else (if fills[0].maker == id then fills[0].quantity else 0) + FilledFor(fills[1..], id)
  }

  function RemainingOf(q: seq<Order>, id: OrderId): int {
    if q == [] then 0
    else if q[0].request.id == id then q[0].remaining
    else RemainingOf(q[1..], id)
  }

  lemma {:induction false} AbsentRemaining(q: seq<Order>, id: OrderId)
    requires forall k :: 0 <= k < |q| ==> q[k].request.id != id
    ensures RemainingOf(q, id) == 0
  {
    if q != [] {
      AbsentRemaining(q[1..], id);
    }
  }

  /** Every maker's remaining quantity falls by exactly the fills that name it. */
  lemma {:induction false} MakersPayTheirFills(side: Side, limit: int, taker: OrderId, quantity: int, makers: seq<Order>, id: OrderId)
    requires DistinctIds(makers)
    ensures var w := Walk(side, limit, taker, quantity, makers);
            RemainingOf(makers, id) == RemainingOf(w.left, id) + FilledFor(w.fills, id)
    decreases |makers|
  {
    var w := Walk(side, limit, taker, quantity, makers);
    if quantity > 0 && makers != [] && Crosses(side, limit, makers[0].request.price) {
      var traded := Min(quantity, makers[0].remaining);
      if traded == makers[0].remaining {
        MakersPayTheirFills(side, limit, taker, quantity - traded, makers[1..], id);
        assert w.fills[1..] == Walk(side, limit, taker, quantity - traded, makers[1..]).fills;
        if makers[0].request.id == id {
          AbsentRemaining(makers[1..], id);
        }
      } else {
        assert w.left[1..] == makers[1..] && w.fills[1..] == [];
      }
    }
  }
}
