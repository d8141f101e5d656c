/**
 The daemon's handling of decoded messages: the matcher, the risk engine, and
 the map that remembers who owns each resting order.
 */
module Daemon {
  import opened Common
  import opened OrderBook
  import opened BookInvariant
  import opened BookTheorems
  import opened BookRuns
  import opened BookAnswers
  import opened MapSums
  import Risk
  import Margin

  datatype Context = Context(account: U64, market: U16, side: Side)

  datatype State = State(engine: Engine, risk: Risk.RiskState, resting: map<U64, Context>)

  datatype NewOrderMessage = NewOrderMessage(account: U64, nonce: U64, side: Side, quantity: int, price: int, flags: Flags)

  datatype ReplaceMessage = ReplaceMessage(account: U64, orderId: U64, newQuantity: int, newPrice: int, newFlags: Flags)

  datatype Message = Placing(order: NewOrderMessage) | Withdrawing(orderId: U64) | Amending(amendment: ReplaceMessage)

  // ----- fills reach the risk engine -----

  function TakerLeg(fill: FillEvent, taker: Context): Risk.Fill {
    Risk.Fill(taker.account, taker.market, taker.side, fill.quantity, fill.price)
  }

  /** The legs of a fill that the daemon applies: the maker's only if it is remembered. */
  function ApplyLegs(risk: Risk.RiskState, resting: map<U64, Context>, fill: FillEvent, taker: Context): Risk.RiskState {
    var mid := Risk.ApplyFill(risk, TakerLeg(fill, taker));
    if Encode(fill.maker) in resting then Risk.ApplyFill(mid, TakerLeg(fill, resting[Encode(fill.maker)])) else mid
  }

  function ProcessFills(risk: Risk.RiskState, resting: map<U64, Context>, fills: seq<FillEvent>, taker: Context): Risk.RiskState {
    if fills == [] then risk
    else ApplyLegs(ProcessFills(risk, resting, fills[..|fills| - 1], taker), resting, fills[|fills| - 1], taker)
  }

  // ----- the three message handlers -----

  /** Only the low bits of the account and the nonce make up the id of a new order. */
  function NewOrderId(market: U16, msg: NewOrderMessage): OrderId {
    OrderId(market, msg.account % 0x1_0000, msg.nonce % 0x1_0000_0000)
  }

  function NewOrderRequest(market: U16, msg: NewOrderMessage): OrderRequest {
    OrderRequest(NewOrderId(market, msg), msg.account, msg.side, msg.quantity, msg.price, 0, Gtc, msg.flags)
  }

  function NewOrderIntent(market: U16, msg: NewOrderMessage): Margin.OrderIntent {
    Margin.OrderIntent(msg.account, market, msg.side, msg.quantity, msg.price, msg.flags.reduceOnly)
  }

  ghost predicate RiskAccepts(d: State, market: U16, msg: NewOrderMessage) {
    Margin.EvaluateOrder(d.risk, NewOrderIntent(market, msg)).decision.Accepted?
  }

  ghost function OnNewOrder(d: State, market: U16, msg: NewOrderMessage): State {
    if !RiskAccepts(d, market, msg) then d
    else
      var (engine, result) := Submit(d.engine, NewOrderRequest(market, msg));
      if !result.accepted then d.(engine := engine)
      else
        var key, taker := Encode(NewOrderId(market, msg)), Context(msg.account, market, msg.side);
        State(engine, ProcessFills(d.risk, d.resting, result.fills, taker),
              if result.resting then d.resting[key := taker] else d.resting - {key})
  }

  lemma RefusedChangesNothing(d: State, market: U16, msg: NewOrderMessage)
    ensures !RiskAccepts(d, market, msg) ==> OnNewOrder(d, market, msg) == d
  {
  }

  function OnCancel(d: State, orderId: U64): State {
    var (engine, result) := Cancel(d.engine, Decode(orderId));
    State(engine, d.risk, if result.cancelled then d.resting - {Encode(Decode(orderId))} else d.resting)
  }

  function AmendRequest(msg: ReplaceMessage): ReplaceRequest {
    ReplaceRequest(Decode(msg.orderId), msg.newQuantity, msg.newPrice, 0, Gtc, msg.newFlags)
  }

  function AmendContext(d: State, msg: ReplaceMessage): Context {
    var id := Decode(msg.orderId);
    if Encode(id) in d.resting then d.resting[Encode(id)] else Context(msg.account, id.market, Buy)
  }

  function OnReplace(d: State, msg: ReplaceMessage): State {
    var (engine, result) := Replace(d.engine, AmendRequest(msg));
    if !result.accepted then d.(engine := engine)
    else
      var key, taker := Encode(Decode(msg.orderId)), AmendContext(d, msg);
      State(engine, ProcessFills(d.risk, d.resting, result.fills, taker),
            if result.resting then d.resting[key := taker] else d.resting - {key})
  }

  ghost function Handle(d: State, market: U16, msg: Message): State {
    match msg
    case Placing(order) => OnNewOrder(d, market, order)
    case Withdrawing(orderId) => OnCancel(d, orderId)
    case Amending(amendment) => OnReplace(d, amendment)
  }

  // ----- coherence of the remembered owners with the matcher -----

  predicate Known(resting: map<U64, Context>, o: Order) {
    && Encode(o.request.id) in resting
    && resting[Encode(o.request.id)] == Context(o.request.account, o.request.id.market, o.request.side)
  }

  ghost predicate AllKnown(resting: map<U64, Context>, q: seq<Order>) {
    forall i :: 0 <= i < |q| ==> Known(resting, q[i])
  }

  ghost predicate BookKnown(resting: map<U64, Context>, b: Book) {
    AllKnown(resting, b.bids) && AllKnown(resting, b.asks)
  }

  /** Every order in the matcher's books is remembered with its true account, market and side. */
  ghost predicate Coherent(d: State) {
    forall m :: m in d.engine ==> BookKnown(d.resting, d.engine[m])
  }

  ghost predicate Inv(d: State) {
    EngineInv(d.engine) && Coherent(d)
  }

  /** Being known depends on the request alone. */
  lemma KnownFromRequests(resting: map<U64, Context>, q: seq<Order>, p: seq<Order>)
    requires FromRequests(q, p) && AllKnown(resting, p)
    ensures AllKnown(resting, q)
  {
    forall i | 0 <= i < |q|
      ensures Known(resting, q[i])
    {
      assert HasRequest(p, q[i].request);
      var j :| 0 <= j < |p| && p[j].request == q[i].request;
      assert Known(resting, p[j]);
    }
  }

  /** Changing the entry of an id that the queue does not hold leaves the queue known. */
  lemma KnownElsewhere(resting: map<U64, Context>, resting': map<U64, Context>, q: seq<Order>, id: OrderId)
    requires AllKnown(resting, q) && !HasId(q, id)
    requires resting' - {Encode(id)} == resting - {Encode(id)}
    ensures AllKnown(resting', q)
  {
    forall i | 0 <= i < |q|
      ensures Known(resting', q[i])
    {
      assert Known(resting, q[i]) && q[i].request.id != id;
      if Encode(q[i].request.id) == Encode(id) {
        EncodeInjective(q[i].request.id, id);
      }
      var k := Encode(q[i].request.id);
      assert k in resting - {Encode(id)} && (resting - {Encode(id)})[k] == resting[k];
      assert k in resting' - {Encode(id)} && (resting' - {Encode(id)})[k] == resting'[k];
    }
  }

  lemma BookKnownElsewhere(resting: map<U64, Context>, resting': map<U64, Context>, b: Book, id: OrderId)
    requires BookKnown(resting, b) && !Contains(b, id)
    requires resting' - {Encode(id)} == resting - {Encode(id)}
    ensures BookKnown(resting', b)
  {
    KnownElsewhere(resting, resting', b.bids, id);
    KnownElsewhere(resting, resting', b.asks, id);
  }

  /** Other markets do not hold the id. */
  lemma OtherMarketsKnown(d: State, d': State, id: OrderId)
    requires Inv(d) && d'.resting - {Encode(id)} == d.resting - {Encode(id)}
    requires forall m :: m in d'.engine && m != id.market ==> m in d.engine && d'.engine[m] == d.engine[m]
    requires id.market in d'.engine ==> BookKnown(d'.resting, d'.engine[id.market])
    ensures Coherent(d')
  {
    forall m | m in d'.engine && m != id.market
      ensures BookKnown(d'.resting, d'.engine[m])
    {
      assert InMarket(d.engine[m], m);
      assert !Contains(d.engine[m], id);
      BookKnownElsewhere(d.resting, d'.resting, d.engine[m], id);
    }
  }

  /** A placement of an order owned by `ctx` in a known book: what it takes for the book to stay known. */
  lemma PlaceKnown(b: Book, req: OrderRequest, resting: map<U64, Context>, resting': map<U64, Context>)
    requires BookInv(b) && BookKnown(resting, b)
    requires resting' - {Encode(req.id)} == resting - {Encode(req.id)}
    requires var r := Place(b, req).result;
             if !r.accepted then resting' == resting
             else if r.resting then Encode(req.id) in resting' && resting'[Encode(req.id)] == Context(req.account, req.id.market, req.side)
             else Encode(req.id) !in resting'
    ensures BookKnown(resting', Place(b, req).book) <==>
            !(Place(b, req).result.accepted && !Place(b, req).result.resting && Contains(AfterMatch(b, req), req.id))
  {
    var r := Place(b, req).result;
    var after := AfterMatch(b, req);
    if PostOnlyBlocked(b, req) || FokBlocked(b, req) {
      return;
    }
    MatchKeeps(b, req);
    var side := Opposite(req.side);
    KnownFromRequests(resting, Queue(after, side), Queue(b, side));
    assert BookKnown(resting, after);
    if !Contains(after, req.id) {
      BookKnownElsewhere(resting, resting', after, req.id);
      if r.resting {
        PlaceRests(b, req);
        InsertMembers(req.side, Queue(b, req.side), Refreshed(Unmatched(b, req)));
      }
    } else if r.accepted {
      OrphanUnknown(after, req.id, resting');
    }
  }

  lemma OrphanUnknown(b: Book, id: OrderId, resting: map<U64, Context>)
    requires Contains(b, id) && Encode(id) !in resting
    ensures !BookKnown(resting, b)
  {
    if HasId(b.bids, id) {
      var i :| 0 <= i < |b.bids| && b.bids[i].request.id == id;
      assert !Known(resting, b.bids[i]);
    } else {
      var i :| 0 <= i < |b.asks| && b.asks[i].request.id == id;
      assert !Known(resting, b.asks[i]);
    }
  }

  /**
   The one way to lose track of an owner, told before the message is handled:
   an order under an id that is already resting can be filled completely, and
   the resting order outlasts it.
   */
  ghost predicate Orphans(d: State, market: U16, msg: NewOrderMessage) {
    var b, req := BookOf(d.engine, market), NewOrderRequest(market, msg);
    && RiskAccepts(d, market, msg) && Admissible(req) && !PostOnlyBlocked(b, req)
    && Fillable(req.side, req.price, Queue(b, Opposite(req.side))) >= req.quantity && IdOutlasts(b, req)
  }

  lemma EmptyKnown(resting: map<U64, Context>)
    ensures BookInv(EMPTY_BOOK) && BookKnown(resting, EMPTY_BOOK)
  {
  }

  lemma BookOfInv(e: Engine, market: U16)
    requires EngineInv(e)
    ensures BookInv(BookOf(e, market)) && InMarket(BookOf(e, market), market)
  {
    hide BookInv, InMarket;
    if market !in e {
      EmptyInMarket(market);
    }
  }

  lemma EmptyInMarket(market: U16)
    ensures BookInv(EMPTY_BOOK) && InMarket(EMPTY_BOOK, market)
  {
  }

  /** A new order keeps every owner remembered exactly when it orphans none; a fresh id never does. */
  lemma NewOrderKeepsOwnersIff(d: State, market: U16, msg: NewOrderMessage)
    requires Inv(d)
    ensures Coherent(OnNewOrder(d, market, msg)) <==> !Orphans(d, market, msg)
    ensures EngineInv(OnNewOrder(d, market, msg).engine)
    ensures Orphans(d, market, msg) ==> Contains(BookOf(d.engine, market), NewOrderId(market, msg))
  {
    hide Place, Walk, BookInv, BookKnown, AllKnown, Fillable, IdOutlasts, Contains, RiskAccepts, ProcessFills;
    var b, req := BookOf(d.engine, market), NewOrderRequest(market, msg);
    EmptyKnown(d.resting);
    BookOfInv(d.engine, market);
    StepKeeps(d.engine, Submitting(req));
    LeftoverExact(b, req);
    IdOutlastsExact(b, req);
    if Orphans(d, market, msg) {
      MatchAddsNoId(b, req, req.id);
    }
    if RiskAccepts(d, market, msg) && Admissible(req) {
      var d' := OnNewOrder(d, market, msg);
      var key := Encode(req.id);
      assert d'.resting - {key} == d.resting - {key};
      GtcResult(b, req);
      PlaceKnown(b, req, d.resting, d'.resting);
      assert d'.engine[market] == Place(b, req).book;
      if !Orphans(d, market, msg) {
        OtherMarketsKnown(d, d', req.id);
      }
    }
  }

  /** A good-till-cancelled order is accepted without resting exactly when it is completely matched. */
  lemma GtcResult(b: Book, req: OrderRequest)
    requires req.tif.Gtc?
    ensures var r := Place(b, req).result;
            r.accepted && !r.resting <==> !PostOnlyBlocked(b, req) && Matched(b, req).remaining <= 0
  {
    hide Walk, Insert, Fillable;
  }

  /** A cancel keeps every owner remembered; it forgets the key it was sent if that order rested, and does nothing at all otherwise. */
  lemma CancelKeepsOwners(d: State, orderId: U64)
    requires Inv(d)
    ensures Inv(OnCancel(d, orderId))
    ensures OnCancel(d, orderId).resting
            == if Cancel(d.engine, Decode(orderId)).1.cancelled then d.resting - {orderId} else d.resting
    ensures Rests(d, Decode(orderId)) ==>
              && orderId in d.resting && !Rests(OnCancel(d, orderId), Decode(orderId))
              && OnCancel(d, orderId).resting == d.resting - {orderId}
    ensures !Rests(d, Decode(orderId)) ==> OnCancel(d, orderId) == d
  {
    hide BookInv, BookKnown, RemoveId, Contains;
    var id := Decode(orderId);
    var d' := OnCancel(d, orderId);
    EncodeDecode(orderId);
    CancelAnswer(d.engine, id);
    if Rests(d, id) {
      RememberedIsTrue(d, id);
    }
    StepKeeps(d.engine, Cancelling(id));
    if Cancel(d.engine, id).1.cancelled {
      var b := d.engine[id.market];
      RemoveIdKeeps(b, id);
      RemovedKnown(d.resting, b, id);
      BookKnownElsewhere(d.resting, d'.resting, RemoveId(b, id), id);
      OtherMarketsKnown(d, d', id);
    }
  }

  lemma RemovedKnown(resting: map<U64, Context>, b: Book, id: OrderId)
    requires BookKnown(resting, b)
    ensures BookKnown(resting, RemoveId(b, id))
  {
  }

  ghost predicate Rests(d: State, id: OrderId) {
    id.market in d.engine && Contains(d.engine[id.market], id)
  }

  /** Whose order an id names, by the matcher's own record. */
  ghost function TrueOwner(d: State, id: OrderId): Context
    requires Rests(d, id)
  {
    var request := Lookup(d.engine[id.market], id).request;
    Context(request.account, id.market, request.side)
  }

  /** In a coherent state the daemon remembers every resting order as the matcher has it. */
  lemma RememberedIsTrue(d: State, id: OrderId)
    requires Inv(d) && Rests(d, id)
    ensures Encode(id) in d.resting && d.resting[Encode(id)] == TrueOwner(d, id)
    ensures Lookup(d.engine[id.market], id).request.id == id
  {
    var b := d.engine[id.market];
    hide BookInv;
    if HasId(b.bids, id) {
      assert Known(d.resting, b.bids[IndexOf(b.bids, id)]);
    } else {
      assert Known(d.resting, b.asks[IndexOf(b.asks, id)]);
    }
  }

  /** The context that a replace uses is the true owner of the order it finds. */
  lemma AmendContextIsTrue(d: State, msg: ReplaceMessage)
    requires Inv(d) && Rests(d, Decode(msg.orderId))
    ensures var id := Decode(msg.orderId);
            Lookup(d.engine[id.market], id).request.id == id && AmendContext(d, msg) == TrueOwner(d, id)
  {
    RememberedIsTrue(d, Decode(msg.orderId));
  }

  lemma ReplaceKeepsOwners(d: State, msg: ReplaceMessage)
    requires Inv(d)
    ensures Inv(OnReplace(d, msg))
  {
    hide Place, Walk, BookInv, BookKnown, AllKnown, Lookup, RemoveId;
    var id := Decode(msg.orderId);
    var d' := OnReplace(d, msg);
    StepKeeps(d.engine, Replacing(AmendRequest(msg)));
    if id.market in d.engine && Contains(d.engine[id.market], id) {
      var b := d.engine[id.market];
      var req := ReplacementRequest(Lookup(b, id), AmendRequest(msg));
      var b' := RemoveId(b, id);
      AmendContextIsTrue(d, msg);
      RemoveIdKeeps(b, id);
      RemovedKnown(d.resting, b, id);
      assert d'.resting - {Encode(id)} == d.resting - {Encode(id)};
      PlaceKnown(b', req, d.resting, d'.resting);
      if Contains(AfterMatch(b', req), id) {
        MatchAddsNoId(b', req, id);
      }
      OtherMarketsKnown(d, d', id);
    }
  }

  // ----- whole runs -----

  ghost function RunDaemon(d: State, market: U16, msgs: seq<Message>): State {
    if msgs == [] then d else Handle(RunDaemon(d, market, msgs[..|msgs| - 1]), market, msgs[|msgs| - 1])
  }

  lemma RunStep(d: State, market: U16, msgs: seq<Message>, n: nat)
    requires n < |msgs|
    ensures RunDaemon(d, market, msgs[..n + 1]) == Handle(RunDaemon(d, market, msgs[..n]), market, msgs[n])
  {
    assert msgs[..n + 1][..n] == msgs[..n];
  }

  lemma HandleKeepsEngine(d: State, market: U16, msg: Message)
    requires EngineInv(d.engine)
    ensures EngineInv(Handle(d, market, msg).engine)
  {
    hide EngineInv, Submit, Cancel, Replace, ProcessFills;
    match msg
    case Placing(order) => StepKeeps(d.engine, Submitting(NewOrderRequest(market, order)));
    case Withdrawing(orderId) => StepKeeps(d.engine, Cancelling(Decode(orderId)));
    case Amending(amendment) => StepKeeps(d.engine, Replacing(AmendRequest(amendment)));
  }

  lemma {:induction false} RunKeepsEngine(d: State, market: U16, msgs: seq<Message>)
    requires EngineInv(d.engine)
    ensures EngineInv(RunDaemon(d, market, msgs).engine)
  {
    if msgs != [] {
      RunKeepsEngine(d, market, msgs[..|msgs| - 1]);
      HandleKeepsEngine(RunDaemon(d, market, msgs[..|msgs| - 1]), market, msgs[|msgs| - 1]);
    }
  }

  /** No message of the run orphans a resting order. */
  ghost predicate NoOrphans(d: State, market: U16, msgs: seq<Message>) {
    forall n :: 0 <= n < |msgs| && msgs[n].Placing? ==> !Orphans(RunDaemon(d, market, msgs[..n]), market, msgs[n].order)
  }

  /** Owners are remembered from the start to the end of the run. */
  ghost predicate OwnersKept(d: State, market: U16, msgs: seq<Message>) {
    forall n :: 0 <= n <= |msgs| ==> Coherent(RunDaemon(d, market, msgs[..n]))
  }

  /** No new order of the run reuses the id of an order that is resting when it arrives. */
  ghost predicate FreshIds(d: State, market: U16, msgs: seq<Message>) {
    forall n :: 0 <= n < |msgs| && msgs[n].Placing? ==>
      !Contains(BookOf(RunDaemon(d, market, msgs[..n]).engine, market), NewOrderId(market, msgs[n].order))
  }

  lemma HandleKeepsIff(d: State, market: U16, msg: Message)
    requires Inv(d)
    ensures Coherent(Handle(d, market, msg)) <==> !(msg.Placing? && Orphans(d, market, msg.order))
    ensures EngineInv(Handle(d, market, msg).engine)
  {
    hide Inv, Coherent, Orphans, OnNewOrder, OnCancel, OnReplace;
    InvParts(d);
    HandleKeepsEngine(d, market, msg);
    match msg
    case Placing(order) => NewOrderKeepsOwnersIff(d, market, order);
    case Withdrawing(orderId) =>
      CancelKeepsOwners(d, orderId);
      InvParts(OnCancel(d, orderId));
    case Amending(amendment) =>
      ReplaceKeepsOwners(d, amendment);
      InvParts(OnReplace(d, amendment));
  }

  lemma InvParts(d: State)
    ensures Inv(d) <==> EngineInv(d.engine) && Coherent(d)
  {
  }

  /** Owners are remembered in every state of a run exactly when no message of it orphans an order. */
  lemma RunKeepsOwnersIff(d: State, market: U16, msgs: seq<Message>)
    requires Inv(d)
    ensures OwnersKept(d, market, msgs) <==> NoOrphans(d, market, msgs)
  {
    hide Handle, Orphans, Coherent, EngineInv;
    if OwnersKept(d, market, msgs) {
      forall n | 0 <= n < |msgs| && msgs[n].Placing?
        ensures !Orphans(RunDaemon(d, market, msgs[..n]), market, msgs[n].order)
      {
        RunKeepsEngine(d, market, msgs[..n]);
        RunStep(d, market, msgs, n);
        HandleKeepsIff(RunDaemon(d, market, msgs[..n]), market, msgs[n]);
      }
    }
    if NoOrphans(d, market, msgs) {
      forall n | 0 <= n <= |msgs|
        ensures Coherent(RunDaemon(d, market, msgs[..n]))
      {
        OwnersUpTo(d, market, msgs, n);
      }
    }
  }

  lemma {:induction false} OwnersUpTo(d: State, market: U16, msgs: seq<Message>, n: nat)
    requires Inv(d) && n <= |msgs| && NoOrphans(d, market, msgs)
    ensures Inv(RunDaemon(d, market, msgs[..n]))
  {
    hide Handle, Orphans, Coherent, EngineInv;
    if n > 0 {
      OwnersUpTo(d, market, msgs, n - 1);
      RunStep(d, market, msgs, n - 1);
      HandleKeepsIff(RunDaemon(d, market, msgs[..n - 1]), market, msgs[n - 1]);
    }
  }

  lemma RunKeepsOwners(d: State, market: U16, msgs: seq<Message>)
    requires Inv(d) && NoOrphans(d, market, msgs)
    ensures Inv(RunDaemon(d, market, msgs))
  {
    OwnersUpTo(d, market, msgs, |msgs|);
    assert msgs[..|msgs|] == msgs;
  }

  lemma NoOrphansBefore(d: State, market: U16, msgs: seq<Message>)
    requires msgs != [] && NoOrphans(d, market, msgs)
    ensures NoOrphans(d, market, msgs[..|msgs| - 1])
  {
    var before := msgs[..|msgs| - 1];
    hide Orphans;
    forall n | 0 <= n < |before| && before[n].Placing?
      ensures !Orphans(RunDaemon(d, market, before[..n]), market, before[n].order)
    {
      assert before[..n] == msgs[..n];
    }
  }

  /** Fresh ids orphan nothing. */
  lemma FreshIdsOrphanNothing(d: State, market: U16, msgs: seq<Message>)
    requires EngineInv(d.engine) && FreshIds(d, market, msgs)
    ensures NoOrphans(d, market, msgs)
  {
    hide Contains, BookInv, Fillable, RiskAccepts, IdOutlasts;
    forall n | 0 <= n < |msgs| && msgs[n].Placing?
      ensures !Orphans(RunDaemon(d, market, msgs[..n]), market, msgs[n].order)
    {
      var mid := RunDaemon(d, market, msgs[..n]);
      RunKeepsEngine(d, market, msgs[..n]);
      BookOfInv(mid.engine, market);
      OutlastsRests(BookOf(mid.engine, market), NewOrderRequest(market, msgs[n].order));
    }
  }

  lemma OutlastsRests(b: Book, req: OrderRequest)
    ensures IdOutlasts(b, req) ==> Contains(b, req.id)
  {
  }

  // ----- the start -----

  /** One configured market: its risk parameters and its first mark price. */
  datatype MarketSetup = MarketSetup(market: U16, config: Risk.MarketConfig, markPrice: int)

  const EMPTY_STATE := State(map[], Risk.RiskState(map[], map[]), map[])

  function Configure(d: State, setup: MarketSetup): State {
    d.(engine := AddMarket(d.engine, setup.market),
       risk := d.risk.(markets := d.risk.markets[setup.market := Risk.MarketState(setup.config, setup.markPrice)]))
  }

  function ConfigureAll(d: State, setups: seq<MarketSetup>): State {
    if setups == [] then d else Configure(ConfigureAll(d, setups[..|setups| - 1]), setups[|setups| - 1])
  }

  /** Nothing rests and nobody holds a position. */
  ghost predicate Untraded(d: State) {
    && (forall m :: m in d.engine ==> d.engine[m] == EMPTY_BOOK)
    && (forall a :: a in d.risk.accounts ==> d.risk.accounts[a].positions == map[])
  }

  lemma UntradedInv(d: State)
    requires Untraded(d)
    ensures Inv(d)
  {
    hide BookInv, InMarket, BookKnown;
    forall m | m in d.engine
      ensures BookInv(d.engine[m]) && InMarket(d.engine[m], m) && BookKnown(d.resting, d.engine[m])
    {
      EmptyInMarket(m);
      EmptyKnown(d.resting);
    }
  }

  /** Configuring markets leaves a daemon in which nothing has been traded, and every configured market can trade. */
  lemma {:induction false} ConfiguredIsUntraded(d: State, setups: seq<MarketSetup>)
    requires Untraded(d)
    ensures Untraded(ConfigureAll(d, setups))
    ensures forall k :: 0 <= k < |setups| ==>
              setups[k].market in ConfigureAll(d, setups).engine && setups[k].market in ConfigureAll(d, setups).risk.markets
  {
    if setups != [] {
      ConfiguredIsUntraded(d, setups[..|setups| - 1]);
    }
  }
}
