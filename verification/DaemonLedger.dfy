/**
 Every fill that the matcher makes, and what becomes of it in the risk engine:
 which fills the daemon loses, whose positions the others move, and exactly
 when the positions of a market keep their sum.
 */
module DaemonLedger {
  import opened Common
  import opened OrderBook
  import opened Ladder
  import opened BookInvariant
  import opened BookTheorems
  import opened BookRuns
  import opened Daemon
  import Risk

  // ----- the fills of a message -----

  /** A placement that reaches the matching engine. */
  datatype Attempt = Attempt(book: Book, order: OrderRequest)

  ghost function AttemptOf(d: State, market: U16, msg: Message): Option<Attempt> {
    match msg
    case Placing(order) =>
      var req := NewOrderRequest(market, order);
      if RiskAccepts(d, market, order) && Admissible(req) then Some(Attempt(BookOf(d.engine, market), req)) else None
    case Withdrawing(_) => None
    case Amending(amendment) =>
      var id := Decode(amendment.orderId);
      if Rests(d, id) then
        Some(Attempt(RemoveId(d.engine[id.market], id), ReplacementRequest(Lookup(d.engine[id.market], id), AmendRequest(amendment))))
      else None
  }

  /** All the fills that the matcher returns, whether or not it accepts the order. */
  ghost function MessageFills(d: State, market: U16, msg: Message): seq<FillEvent> {
    match msg
    case Placing(order) => if RiskAccepts(d, market, order) then Submit(d.engine, NewOrderRequest(market, order)).1.fills else []
    case Withdrawing(_) => []
    case Amending(amendment) => Replace(d.engine, AmendRequest(amendment)).1.fills
  }

  /** The fills that the daemon hands to the risk engine. */
  ghost function AppliedFills(d: State, market: U16, msg: Message): seq<FillEvent> {
    match msg
    case Placing(order) =>
      var result := Submit(d.engine, NewOrderRequest(market, order)).1;
      if RiskAccepts(d, market, order) && result.accepted then result.fills else []
    case Withdrawing(_) => []
    case Amending(amendment) =>
      var result := Replace(d.engine, AmendRequest(amendment)).1;
      if result.accepted then result.fills else []
  }

  /** Whom the daemon takes for the taker; a cancel has none. */
  ghost function TakerContext(d: State, market: U16, msg: Message): Context {
    match msg
    case Placing(order) => Context(order.account, market, order.side)
    case Withdrawing(_) => Context(0, market, Buy)
    case Amending(amendment) => AmendContext(d, amendment)
  }

  lemma HandledRisk(d: State, market: U16, msg: Message)
    ensures Handle(d, market, msg).risk
            == ProcessFills(d.risk, d.resting, AppliedFills(d, market, msg), TakerContext(d, market, msg))
  {
    hide Submit, Replace, Cancel, RiskAccepts;
  }

  lemma AttemptOk(d: State, market: U16, msg: Message)
    requires EngineInv(d.engine) && AttemptOf(d, market, msg).Some?
    ensures var a := AttemptOf(d, market, msg).value;
            && BookInv(a.book) && InMarket(a.book, a.order.id.market)
            && (msg.Amending? ==> !Contains(a.book, a.order.id))
            && MessageFills(d, market, msg) == Place(a.book, a.order).result.fills
            && AppliedFills(d, market, msg) ==
               if Place(a.book, a.order).result.accepted then Place(a.book, a.order).result.fills else []
  {
    hide Place, BookInv, InMarket, RemoveId, Contains, RiskAccepts;
    match msg
    case Placing(_) => BookOfInv(d.engine, market);
    case Amending(amendment) =>
      var id := Decode(amendment.orderId);
      RemoveIdKeeps(d.engine[id.market], id);
      RemoveInMarket(d.engine[id.market], id, id.market);
  }

  lemma NoAttemptNoFills(d: State, market: U16, msg: Message)
    requires AttemptOf(d, market, msg).None?
    ensures MessageFills(d, market, msg) == [] && AppliedFills(d, market, msg) == []
  {
    hide Place, RiskAccepts;
  }

  // ----- the fills that are lost -----

  /**
   The one way to lose fills, told before the message is handled: a new order
   can trade, but not completely, and its leftover repeats an id that rests out
   of its reach.
   */
  ghost predicate LosesFills(d: State, market: U16, msg: Message) {
    msg.Placing? &&
    var b, req := BookOf(d.engine, market), NewOrderRequest(market, msg.order);
    && RiskAccepts(d, market, msg.order) && Admissible(req) && DuplicateLeftover(b, req)
    && Fillable(req.side, req.price, Queue(b, Opposite(req.side))) > 0
  }

  /** Every fill that the matcher returns is applied unless the message loses them, and then none is. */
  lemma LosesFillsIff(d: State, market: U16, msg: Message)
    requires EngineInv(d.engine)
    ensures AppliedFills(d, market, msg) == if LosesFills(d, market, msg) then [] else MessageFills(d, market, msg)
    ensures LosesFills(d, market, msg) ==> MessageFills(d, market, msg) != []
    ensures AppliedFills(d, market, msg) == MessageFills(d, market, msg) <==> !LosesFills(d, market, msg)
  {
    hide Place, BookInv, InMarket, Fillable, DuplicateLeftover, RiskAccepts, RemoveId, AppliedFills, MessageFills, Contains;
    if AttemptOf(d, market, msg).None? {
      NoAttemptNoFills(d, market, msg);
    } else {
      var a := AttemptOf(d, market, msg).value;
      AttemptOk(d, market, msg);
      if !Place(a.book, a.order).result.accepted {
        RejectionUnchangedIff(a.book, a.order);
        if msg.Amending? {
          FreshRejectionTradesNothing(a.book, a.order);
        }
      } else {
        RejectionExact(a.book, a.order);
      }
    }
  }

  /** When fills are lost no position moves, although the makers' quantity has left the book. */
  lemma LostFillsLeaveTheBook(d: State, market: U16, msg: Message)
    requires EngineInv(d.engine) && LosesFills(d, market, msg)
    ensures Handle(d, market, msg).risk == d.risk
    ensures var fills, side := MessageFills(d, market, msg), Opposite(msg.order.side);
            && SumQuantity(fills) > 0
            && SumRemaining(Queue(BookOf(Handle(d, market, msg).engine, market), side))
               == SumRemaining(Queue(BookOf(d.engine, market), side)) - SumQuantity(fills)
  {
    var b, req := BookOf(d.engine, market), NewOrderRequest(market, msg.order);
    var makers := Queue(b, Opposite(req.side));
    hide Place, BookInv, InMarket, Fillable, DuplicateLeftover, RiskAccepts, MessageFills, SumQuantity, SumRemaining, Walk, OrderOk;
    LosesFillsIff(d, market, msg);
    HandledRisk(d, market, msg);
    AttemptOk(d, market, msg);
    RejectionExact(b, req);
    MakersCross(b, req);
    MakersPositive(b, Opposite(req.side));
    WalkConserves(req.side, req.price, req.id, req.quantity, makers);
    FillsNameMakers(b, req);
    PositiveSum(MessageFills(d, market, msg));
  }

  /** A fresh id loses nothing. */
  lemma FreshLosesNothing(d: State, market: U16, msg: Message)
    requires EngineInv(d.engine) && (msg.Placing? ==> !Contains(BookOf(d.engine, market), NewOrderId(market, msg.order)))
    ensures !LosesFills(d, market, msg)
  {
    hide Fillable, RiskAccepts, PostOnlyBlocked;
  }

  // ----- which makers trade -----

  lemma PlaceFills(b: Book, req: OrderRequest)
    ensures Place(b, req).result.fills
            == if PostOnlyBlocked(b, req) || FokBlocked(b, req) then [] else Matched(b, req).fills
  {
    hide Walk, Insert, Fillable;
  }

  lemma MakersPositive(b: Book, side: Side)
    requires BookInv(b)
    ensures forall k :: 0 <= k < |Queue(b, side)| ==> Queue(b, side)[k].remaining > 0 && Queue(b, side)[k].request.side == side
  {
    SideInv(b, side);
    assert forall k :: 0 <= k < |Queue(b, side)| ==> OrderOk(side, Queue(b, side)[k], b.nextSequence);
  }

  /** The k-th fill names the k-th maker, at its price, for a positive quantity. */
  lemma FillsNameMakers(b: Book, req: OrderRequest)
    requires BookInv(b)
    ensures var makers, fills := Queue(b, Opposite(req.side)), Place(b, req).result.fills;
            && |fills| <= |makers|
            && (forall k :: 0 <= k < |fills| ==>
                  && fills[k].maker == makers[k].request.id && fills[k].price == makers[k].request.price
                  && fills[k].quantity > 0)
  {
    var makers := Queue(b, Opposite(req.side));
    hide Place, Walk, BookInv, PostOnlyBlocked, FokBlocked;
    PlaceFills(b, req);
    MakersPositive(b, Opposite(req.side));
    WalkByPriority(TakerOf(req), makers);
  }

  /** A maker trades exactly when the order is not blocked and reaches it. */
  lemma MakerTrades(b: Book, req: OrderRequest, k: nat)
    requires BookInv(b) && k < |Queue(b, Opposite(req.side))|
    ensures k < |Place(b, req).result.fills| <==>
            !PostOnlyBlocked(b, req) && !FokBlocked(b, req) && Reaches(TakerOf(req), Queue(b, Opposite(req.side)), k)
  {
    hide Place, Walk, BookInv, PostOnlyBlocked, FokBlocked, Reaches, CrossingFirst;
    PlaceFills(b, req);
    MakersCross(b, req);
    MakerFate(TakerOf(req), Queue(b, Opposite(req.side)), k);
  }

  ghost predicate MakersRest(d: State, fills: seq<FillEvent>) {
    forall k :: 0 <= k < |fills| ==> Rests(d, fills[k].maker)
  }

  lemma QueueIds(b: Book, side: Side, k: nat)
    requires k < |Queue(b, side)|
    ensures Contains(b, Queue(b, side)[k].request.id)
  {
  }

  lemma InMarketQueue(b: Book, side: Side, m: U16, k: nat)
    requires InMarket(b, m) && k < |Queue(b, side)|
    ensures Queue(b, side)[k].request.id.market == m
  {
  }

  lemma RemovedRests(b: Book, id: OrderId, other: OrderId)
    requires Contains(RemoveId(b, id), other)
    ensures Contains(b, other)
  {
  }

  /** Every fill's maker rests in the matcher's book before the message. */
  lemma MessageMakersRest(d: State, market: U16, msg: Message)
    requires EngineInv(d.engine)
    ensures MakersRest(d, MessageFills(d, market, msg))
  {
    hide MessageFills, AppliedFills, Place, BookInv, InMarket, Contains, RemoveId, RiskAccepts, Reaches, PostOnlyBlocked, FokBlocked;
    if AttemptOf(d, market, msg).None? {
      NoAttemptNoFills(d, market, msg);
    } else {
      var a := AttemptOf(d, market, msg).value;
      AttemptOk(d, market, msg);
      FillsNameMakers(a.book, a.order);
      var side := Opposite(a.order.side);
      forall k | 0 <= k < |MessageFills(d, market, msg)|
        ensures Rests(d, MessageFills(d, market, msg)[k].maker)
      {
        QueueIds(a.book, side, k);
        InMarketQueue(a.book, side, a.order.id.market, k);
        AttemptRests(d, market, msg, Queue(a.book, side)[k].request.id);
      }
    }
  }

  lemma AttemptRests(d: State, market: U16, msg: Message, id: OrderId)
    requires AttemptOf(d, market, msg).Some? && id.market == AttemptOf(d, market, msg).value.order.id.market
    requires Contains(AttemptOf(d, market, msg).value.book, id)
    ensures Rests(d, id)
  {
    hide RiskAccepts, RemoveId;
    if msg.Amending? {
      var key := Decode(msg.amendment.orderId);
      RemovedRests(d.engine[key.market], key, id);
    }
  }

  // ----- the ledger -----

  function PositionIn(risk: Risk.RiskState, a: U64, m: U16): int {
    Risk.PositionOf(Risk.AccountOf(risk, a), m).quantity
  }

  function SignedFor(leg: Risk.Fill, a: U64, m: U16): int {
    if leg.account != a || leg.market != m then 0
    else match leg.side case Buy => leg.quantity case Sell => -leg.quantity
  }

  /** A party's leg of a trade, as the ledger has it: at the fill's own price. */
  function Leg(fill: FillEvent, party: Context): Risk.Fill {
    Risk.Fill(party.account, party.market, party.side, fill.quantity, fill.price)
  }

  /** What the legs of some fills are worth to an account in a market, makers' owners taken from the matcher's own records. */
  ghost function TrueLegs(d: State, fills: seq<FillEvent>, taker: Context, a: U64, m: U16): int {
    if fills == [] then 0
    else
      var fill := fills[|fills| - 1];
      TrueLegs(d, fills[..|fills| - 1], taker, a, m)
      + SignedFor(Leg(fill, taker), a, m)
      + if Rests(d, fill.maker) then SignedFor(Leg(fill, TrueOwner(d, fill.maker)), a, m) else 0
  }

  /** The true taker: the sender of a new order, or the owner of the order that is replaced. */
  ghost function TrueTaker(d: State, market: U16, msg: Message): Context {
    if msg.Amending? && Rests(d, Decode(msg.amendment.orderId)) then TrueOwner(d, Decode(msg.amendment.orderId))
    else TakerContext(d, market, msg)
  }

  ghost function MessageLegs(d: State, market: U16, msg: Message, a: U64, m: U16): int {
    TrueLegs(d, MessageFills(d, market, msg), TrueTaker(d, market, msg), a, m)
  }

  lemma FillMovesPosition(risk: Risk.RiskState, leg: Risk.Fill, a: U64, m: U16)
    ensures PositionIn(Risk.ApplyFill(risk, leg), a, m) == PositionIn(risk, a, m) + SignedFor(leg, a, m)
  {
    Risk.FillLaw(Risk.PositionOf(Risk.AccountOf(risk, leg.account), leg.market), Risk.Signed(leg.side, leg.quantity), leg.price);
    hide Risk.Moved, Risk.Realized, Risk.Rounding;
  }

  lemma {:induction false} ProcessedLegs(risk: Risk.RiskState, d: State, fills: seq<FillEvent>, taker: Context, a: U64, m: U16)
    requires MakersRest(d, fills)
    requires forall k :: 0 <= k < |fills| ==>
               Encode(fills[k].maker) in d.resting && d.resting[Encode(fills[k].maker)] == TrueOwner(d, fills[k].maker)
    ensures PositionIn(ProcessFills(risk, d.resting, fills, taker), a, m) == PositionIn(risk, a, m) + TrueLegs(d, fills, taker, a, m)
  {
    hide PositionIn, SignedFor, Risk.ApplyFill, TrueOwner;
    if fills != [] {
      var before, fill := fills[..|fills| - 1], fills[|fills| - 1];
      ProcessedLegs(risk, d, before, taker, a, m);
      var mid, leg := ProcessFills(risk, d.resting, before, taker), TakerLeg(fill, taker);
      assert Rests(d, fill.maker);
      FillMovesPosition(mid, leg, a, m);
      FillMovesPosition(Risk.ApplyFill(mid, leg), TakerLeg(fill, TrueOwner(d, fill.maker)), a, m);
    }
  }

  /** In a coherent state a message moves every position by its true legs, or by nothing when it loses its fills. */
  lemma MessageLedger(d: State, market: U16, msg: Message, a: U64, m: U16)
    requires Inv(d)
    ensures PositionIn(Handle(d, market, msg).risk, a, m)
            == PositionIn(d.risk, a, m) + if LosesFills(d, market, msg) then 0 else MessageLegs(d, market, msg, a, m)
  {
    hide MessageFills, AppliedFills, Handle, PositionIn, LosesFills, Rests, TrueOwner, EngineInv, Coherent;
    var fills := MessageFills(d, market, msg);
    HandledRisk(d, market, msg);
    LosesFillsIff(d, market, msg);
    MessageMakersRest(d, market, msg);
    forall k | 0 <= k < |fills|
      ensures Encode(fills[k].maker) in d.resting && d.resting[Encode(fills[k].maker)] == TrueOwner(d, fills[k].maker)
    {
      RememberedIsTrue(d, fills[k].maker);
    }
    if msg.Amending? && Rests(d, Decode(msg.amendment.orderId)) {
      AmendContextIsTrue(d, msg.amendment);
    }
    if !LosesFills(d, market, msg) {
      ProcessedLegs(d.risk, d, fills, TakerContext(d, market, msg), a, m);
    }
  }

  /** The true legs of every fill of a run, makers and takers as the matcher had them before each message. */
  ghost function RunLegs(d: State, market: U16, msgs: seq<Message>, a: U64, m: U16): int {
    if msgs == [] then 0
    else
      var before := msgs[..|msgs| - 1];
      RunLegs(d, market, before, a, m) + MessageLegs(RunDaemon(d, market, before), market, msgs[|msgs| - 1], a, m)
  }

  /** The part of them that belongs to messages which lose their fills. */
  ghost function LostLegs(d: State, market: U16, msgs: seq<Message>, a: U64, m: U16): int {
    if msgs == [] then 0
    else
      var before, msg := msgs[..|msgs| - 1], msgs[|msgs| - 1];
      var mid := RunDaemon(d, market, before);
      LostLegs(d, market, before, a, m) + if LosesFills(mid, market, msg) then MessageLegs(mid, market, msg, a, m) else 0
  }

  /**
   The run's ledger: while no message orphans an order, every account's position
   in every market is its start plus both true legs of every fill the matcher
   made, less exactly those of the messages that lose their fills.
   */
  lemma {:induction false} RunLedger(d: State, market: U16, msgs: seq<Message>, a: U64, m: U16)
    requires Inv(d) && NoOrphans(d, market, msgs)
    ensures PositionIn(RunDaemon(d, market, msgs).risk, a, m)
            == PositionIn(d.risk, a, m) + RunLegs(d, market, msgs, a, m) - LostLegs(d, market, msgs, a, m)
  {
    hide Handle, PositionIn, LosesFills, MessageLegs, Inv, NoOrphans;
    if msgs != [] {
      var before := msgs[..|msgs| - 1];
      NoOrphansBefore(d, market, msgs);
      RunLedger(d, market, before, a, m);
      RunKeepsOwners(d, market, before);
      MessageLedger(RunDaemon(d, market, before), market, msgs[|msgs| - 1], a, m);
    }
  }

  lemma FreshIdsBefore(d: State, market: U16, msgs: seq<Message>)
    requires msgs != [] && FreshIds(d, market, msgs)
    ensures FreshIds(d, market, msgs[..|msgs| - 1])
    ensures var mid, msg := RunDaemon(d, market, msgs[..|msgs| - 1]), msgs[|msgs| - 1];
            msg.Placing? ==> !Contains(BookOf(mid.engine, market), NewOrderId(market, msg.order))
  {
    var before := msgs[..|msgs| - 1];
    hide Contains, Handle;
    forall n | 0 <= n < |before| && before[n].Placing?
      ensures !Contains(BookOf(RunDaemon(d, market, before[..n]).engine, market), NewOrderId(market, before[n].order))
    {
      assert before[..n] == msgs[..n];
    }
  }

  lemma {:induction false} FreshIdsLoseNothing(d: State, market: U16, msgs: seq<Message>, a: U64, m: U16)
    requires EngineInv(d.engine) && FreshIds(d, market, msgs)
    ensures LostLegs(d, market, msgs, a, m) == 0
  {
    hide Handle, LosesFills, MessageLegs, FreshIds, Contains, EngineInv;
    if msgs != [] {
      var before := msgs[..|msgs| - 1];
      FreshIdsBefore(d, market, msgs);
      FreshIdsLoseNothing(d, market, before, a, m);
      RunKeepsEngine(d, market, before);
      FreshLosesNothing(RunDaemon(d, market, before), market, msgs[|msgs| - 1]);
    }
  }

  /** With fresh ids both sides of every fill of the run reach the risk engine, under the true accounts. */
  lemma EveryFillIsBooked(d: State, market: U16, msgs: seq<Message>, a: U64, m: U16)
    requires Inv(d) && FreshIds(d, market, msgs)
    ensures PositionIn(RunDaemon(d, market, msgs).risk, a, m) == PositionIn(d.risk, a, m) + RunLegs(d, market, msgs, a, m)
  {
    hide RunLegs, LostLegs, FreshIds, NoOrphans, PositionIn, RunDaemon, EngineInv, Coherent;
    FreshIdsOrphanNothing(d, market, msgs);
    FreshIdsLoseNothing(d, market, msgs, a, m);
    RunLedger(d, market, msgs, a, m);
  }

  // ----- exactly when positions keep their sum -----

  /** Every fill's maker is remembered, in the taker's market and on the other side. */
  ghost predicate MakersKnown(fills: seq<FillEvent>, resting: map<U64, Context>, taker: Context) {
    forall k :: 0 <= k < |fills| ==> Remembered(fills[k].maker, resting, taker)
  }

  predicate Remembered(maker: OrderId, resting: map<U64, Context>, taker: Context) {
    && Encode(maker) in resting
    && resting[Encode(maker)].market == taker.market
    && resting[Encode(maker)].side == Opposite(taker.side)
  }

  /** How far the legs of some fills are from cancelling out in the taker's market, seen from the taker's side. */
  function Stray(resting: map<U64, Context>, fills: seq<FillEvent>, taker: Context): int {
    if fills == [] then 0
    else
      var fill := fills[|fills| - 1];
      Stray(resting, fills[..|fills| - 1], taker) +
      if Remembered(fill.maker, resting, taker) then 0
      else if Encode(fill.maker) in resting && resting[Encode(fill.maker)].market == taker.market then 2 * fill.quantity
      else fill.quantity
  }

  lemma LegsMoveNet(risk: Risk.RiskState, resting: map<U64, Context>, fill: FillEvent, taker: Context, m: U16)
    ensures Risk.NetPosition(ApplyLegs(risk, resting, fill, taker), m)
            == Risk.NetPosition(risk, m)
               + (if m == taker.market then Risk.Signed(taker.side, fill.quantity) else 0)
               + (if Encode(fill.maker) in resting && resting[Encode(fill.maker)].market == m
                  then Risk.Signed(resting[Encode(fill.maker)].side, fill.quantity) else 0)
  {
    hide Risk.NetPosition, Risk.ApplyFill;
    var leg := TakerLeg(fill, taker);
    Risk.FillMovesNet(risk, leg, m);
    if Encode(fill.maker) in resting {
      Risk.FillMovesNet(Risk.ApplyFill(risk, leg), TakerLeg(fill, resting[Encode(fill.maker)]), m);
    }
  }

  lemma {:induction false} FillsMoveNet(risk: Risk.RiskState, resting: map<U64, Context>, fills: seq<FillEvent>, taker: Context)
    ensures Risk.NetPosition(ProcessFills(risk, resting, fills, taker), taker.market)
            == Risk.NetPosition(risk, taker.market) + Risk.Signed(taker.side, Stray(resting, fills, taker))
  {
    hide Risk.NetPosition, ApplyLegs;
    if fills != [] {
      var before := fills[..|fills| - 1];
      FillsMoveNet(risk, resting, before, taker);
      LegsMoveNet(ProcessFills(risk, resting, before, taker), resting, fills[|fills| - 1], taker, taker.market);
    }
  }

  lemma {:induction false} StrayZero(resting: map<U64, Context>, fills: seq<FillEvent>, taker: Context)
    requires forall k :: 0 <= k < |fills| ==> fills[k].quantity > 0
    ensures Stray(resting, fills, taker) >= 0
    ensures Stray(resting, fills, taker) == 0 <==> MakersKnown(fills, resting, taker)
  {
    hide Remembered;
    if fills != [] {
      var before := fills[..|fills| - 1];
      StrayZero(resting, before, taker);
      assert MakersKnown(fills, resting, taker) <==>
             MakersKnown(before, resting, taker) && Remembered(fills[|fills| - 1].maker, resting, taker);
    }
  }

  lemma {:induction false} KnownFillsKeepNet(risk: Risk.RiskState, resting: map<U64, Context>, fills: seq<FillEvent>, taker: Context, m: U16)
    requires MakersKnown(fills, resting, taker)
    ensures Risk.NetPosition(ProcessFills(risk, resting, fills, taker), m) == Risk.NetPosition(risk, m)
  {
    hide Risk.NetPosition, ApplyLegs;
    if fills != [] {
      var before := fills[..|fills| - 1];
      KnownFillsKeepNet(risk, resting, before, taker, m);
      assert Remembered(fills[|fills| - 1].maker, resting, taker);
      LegsMoveNet(ProcessFills(risk, resting, before, taker), resting, fills[|fills| - 1], taker, m);
    }
  }

  /** No market's net position moves, over all accounts. */
  ghost predicate NetKept(risk: Risk.RiskState, risk': Risk.RiskState) {
    forall m :: Risk.NetPosition(risk', m) == Risk.NetPosition(risk, m)
  }

  /** Positive fills leave every net position alone exactly when all their makers are remembered, in any state. */
  lemma FillsKeepNetIff(risk: Risk.RiskState, resting: map<U64, Context>, fills: seq<FillEvent>, taker: Context)
    requires forall k :: 0 <= k < |fills| ==> fills[k].quantity > 0
    ensures NetKept(risk, ProcessFills(risk, resting, fills, taker)) <==> MakersKnown(fills, resting, taker)
    ensures Risk.NetPosition(ProcessFills(risk, resting, fills, taker), taker.market) == Risk.NetPosition(risk, taker.market)
            <==> MakersKnown(fills, resting, taker)
  {
    hide Risk.NetPosition, ProcessFills, MakersKnown;
    FillsMoveNet(risk, resting, fills, taker);
    StrayZero(resting, fills, taker);
    if MakersKnown(fills, resting, taker) {
      forall m
        ensures Risk.NetPosition(ProcessFills(risk, resting, fills, taker), m) == Risk.NetPosition(risk, m)
      {
        KnownFillsKeepNet(risk, resting, fills, taker, m);
      }
    }
  }

  /**
   The check before a message is handled: it makes no attempt, or the attempt
   is blocked or loses its fills, or every maker that it reaches is remembered.
   */
  ghost predicate KeepsNet(d: State, market: U16, msg: Message) {
    match AttemptOf(d, market, msg)
    case None => true
    case Some(a) =>
      var makers := Queue(a.book, Opposite(a.order.side));
      || PostOnlyBlocked(a.book, a.order) || FokBlocked(a.book, a.order) || LosesFills(d, market, msg)
      || forall k :: 0 <= k < |makers| && Reaches(TakerOf(a.order), makers, k) ==>
           Remembered(makers[k].request.id, d.resting, TakerContext(d, market, msg))
  }

  /** A message leaves every net position alone exactly when it passes that check, in any state of the daemon. */
  lemma MessageKeepsNetIff(d: State, market: U16, msg: Message)
    requires EngineInv(d.engine)
    ensures NetKept(d.risk, Handle(d, market, msg).risk) <==> KeepsNet(d, market, msg)
  {
    hide Handle, NetKept, EngineInv, LosesFills, MessageFills, AppliedFills, Place, PostOnlyBlocked, FokBlocked,
      Reaches, Remembered, BookInv, InMarket, Contains, AttemptOf, TakerContext;
    var fills, taker := AppliedFills(d, market, msg), TakerContext(d, market, msg);
    HandledRisk(d, market, msg);
    LosesFillsIff(d, market, msg);
    match AttemptOf(d, market, msg)
    case None =>
      NoAttemptNoFills(d, market, msg);
      FillsKeepNetIff(d.risk, d.resting, fills, taker);
    case Some(a) =>
      AttemptOk(d, market, msg);
      FillsNameMakers(a.book, a.order);
      assert forall k :: 0 <= k < |fills| ==> fills[k].quantity > 0;
      FillsKeepNetIff(d.risk, d.resting, fills, taker);
      ReachedKnownIff(a.book, a.order, d.resting, taker);
  }

  lemma ReachedKnownIff(b: Book, req: OrderRequest, resting: map<U64, Context>, taker: Context)
    requires BookInv(b)
    ensures var makers := Queue(b, Opposite(req.side));
            MakersKnown(Place(b, req).result.fills, resting, taker) <==>
            || PostOnlyBlocked(b, req) || FokBlocked(b, req)
            || forall k :: 0 <= k < |makers| && Reaches(TakerOf(req), makers, k) ==>
                 Remembered(makers[k].request.id, resting, taker)
  {
    hide Place, BookInv, PostOnlyBlocked, FokBlocked, Reaches, Remembered;
    var makers, fills := Queue(b, Opposite(req.side)), Place(b, req).result.fills;
    FillsNameMakers(b, req);
    forall k | 0 <= k < |fills|
      ensures !PostOnlyBlocked(b, req) && !FokBlocked(b, req) && Reaches(TakerOf(req), makers, k)
      ensures fills[k].maker == makers[k].request.id
    {
      MakerTrades(b, req, k);
    }
    if !PostOnlyBlocked(b, req) && !FokBlocked(b, req) && MakersKnown(fills, resting, taker) {
      forall k | 0 <= k < |makers| && Reaches(TakerOf(req), makers, k)
        ensures Remembered(makers[k].request.id, resting, taker)
      {
        MakerTrades(b, req, k);
        assert Remembered(fills[k].maker, resting, taker);
      }
    }
  }

  /** No net position moves in any step of the run. */
  ghost predicate NetKeptThroughout(d: State, market: U16, msgs: seq<Message>) {
    forall n :: 0 <= n <= |msgs| ==> NetKept(d.risk, RunDaemon(d, market, msgs[..n]).risk)
  }

  ghost predicate AllKeepNet(d: State, market: U16, msgs: seq<Message>) {
    forall n :: 0 <= n < |msgs| ==> KeepsNet(RunDaemon(d, market, msgs[..n]), market, msgs[n])
  }

  /** Over any run of the daemon, every net position stays where it was throughout exactly when every message passes the check. */
  lemma RunKeepsNetIff(d: State, market: U16, msgs: seq<Message>)
    requires EngineInv(d.engine)
    ensures NetKeptThroughout(d, market, msgs) <==> AllKeepNet(d, market, msgs)
  {
    hide KeepsNet, EngineInv, Handle, Risk.NetPosition;
    if NetKeptThroughout(d, market, msgs) {
      forall n | 0 <= n < |msgs|
        ensures KeepsNet(RunDaemon(d, market, msgs[..n]), market, msgs[n])
      {
        RunKeepsEngine(d, market, msgs[..n]);
        RunStep(d, market, msgs, n);
        assert NetKept(d.risk, RunDaemon(d, market, msgs[..n]).risk);
        assert NetKept(d.risk, RunDaemon(d, market, msgs[..n + 1]).risk);
        MessageKeepsNetIff(RunDaemon(d, market, msgs[..n]), market, msgs[n]);
      }
    }
    if AllKeepNet(d, market, msgs) {
      forall n | 0 <= n <= |msgs|
        ensures NetKept(d.risk, RunDaemon(d, market, msgs[..n]).risk)
      {
        NetKeptUpTo(d, market, msgs, n);
      }
    }
  }

  lemma {:induction false} NetKeptUpTo(d: State, market: U16, msgs: seq<Message>, n: nat)
    requires EngineInv(d.engine) && n <= |msgs| && AllKeepNet(d, market, msgs)
    ensures NetKept(d.risk, RunDaemon(d, market, msgs[..n]).risk)
  {
    hide KeepsNet, EngineInv, Handle, Risk.NetPosition;
    if n > 0 {
      NetKeptUpTo(d, market, msgs, n - 1);
      RunKeepsEngine(d, market, msgs[..n - 1]);
      RunStep(d, market, msgs, n - 1);
      MessageKeepsNetIff(RunDaemon(d, market, msgs[..n - 1]), market, msgs[n - 1]);
    }
  }

  /** In a coherent state every fill of every message has a remembered maker on the other side. */
  lemma MessageMakersKnown(d: State, market: U16, msg: Message)
    requires Inv(d)
    ensures MakersKnown(MessageFills(d, market, msg), d.resting, TakerContext(d, market, msg))
  {
    hide MessageFills, AppliedFills, Place, BookInv, InMarket, Contains, RemoveId, RiskAccepts, Reaches, PostOnlyBlocked, FokBlocked,
      EngineInv, Coherent;
    if AttemptOf(d, market, msg).None? {
      NoAttemptNoFills(d, market, msg);
    } else {
      var a := AttemptOf(d, market, msg).value;
      AttemptOk(d, market, msg);
      FillsNameMakers(a.book, a.order);
      AttemptKnown(d, market, msg);
      var side := Opposite(a.order.side);
      MakersPositive(a.book, side);
      forall k | 0 <= k < |MessageFills(d, market, msg)|
        ensures Remembered(MessageFills(d, market, msg)[k].maker, d.resting, TakerContext(d, market, msg))
      {
        InMarketQueue(a.book, side, a.order.id.market, k);
        KnownInQueue(d.resting, a.book, side, k);
      }
    }
  }

  lemma KnownInQueue(resting: map<U64, Context>, b: Book, side: Side, k: nat)
    requires BookKnown(resting, b) && k < |Queue(b, side)|
    ensures Known(resting, Queue(b, side)[k])
  {
  }

  lemma AttemptKnown(d: State, market: U16, msg: Message)
    requires Inv(d) && AttemptOf(d, market, msg).Some?
    ensures var a := AttemptOf(d, market, msg).value;
            && BookKnown(d.resting, a.book)
            && TakerContext(d, market, msg).market == a.order.id.market && TakerContext(d, market, msg).side == a.order.side
  {
    hide BookKnown, RemoveId, RiskAccepts, EngineInv, Rests;
    match msg
    case Placing(_) => EmptyKnown(d.resting);
    case Amending(amendment) =>
      AmendContextIsTrue(d, amendment);
      AttemptRemoved(d, amendment);
  }

  lemma AttemptRemoved(d: State, amendment: ReplaceMessage)
    requires Inv(d) && Rests(d, Decode(amendment.orderId))
    ensures var id := Decode(amendment.orderId); BookKnown(d.resting, RemoveId(d.engine[id.market], id))
  {
    hide BookKnown, RemoveId, EngineInv;
    RemovedKnown(d.resting, d.engine[Decode(amendment.orderId).market], Decode(amendment.orderId));
  }

  /** While no message orphans an order, every message passes the check, and the positions of each market keep their sum. */
  lemma RunIsZeroSum(d: State, market: U16, msgs: seq<Message>)
    requires Inv(d) && NoOrphans(d, market, msgs)
    ensures AllKeepNet(d, market, msgs) && NetKeptThroughout(d, market, msgs)
  {
    hide KeepsNet, NetKept, Handle, EngineInv, Coherent, NoOrphans;
    forall n | 0 <= n < |msgs|
      ensures KeepsNet(RunDaemon(d, market, msgs[..n]), market, msgs[n])
    {
      OwnersUpTo(d, market, msgs, n);
      CoherentKeepsNet(RunDaemon(d, market, msgs[..n]), market, msgs[n]);
    }
    RunKeepsNetIff(d, market, msgs);
  }

  lemma CoherentKeepsNet(d: State, market: U16, msg: Message)
    requires Inv(d)
    ensures KeepsNet(d, market, msg)
  {
    hide EngineInv, Coherent, NetKept, MakersKnown, MessageFills, AppliedFills, Handle, KeepsNet, LosesFills;
    MessageMakersKnown(d, market, msg);
    LosesFillsIff(d, market, msg);
    HandledRisk(d, market, msg);
    NoFillsKnown(d, market, msg);
    AppliedPositive(d, market, msg);
    FillsKeepNetIff(d.risk, d.resting, AppliedFills(d, market, msg), TakerContext(d, market, msg));
    MessageKeepsNetIff(d, market, msg);
  }

  lemma NoFillsKnown(d: State, market: U16, msg: Message)
    ensures MakersKnown([], d.resting, TakerContext(d, market, msg))
  {
  }

  lemma AppliedPositive(d: State, market: U16, msg: Message)
    requires EngineInv(d.engine)
    ensures forall k :: 0 <= k < |AppliedFills(d, market, msg)| ==>
              AppliedFills(d, market, msg)[k].quantity > 0
  {
    hide MessageFills, AppliedFills, Place, BookInv, InMarket, Contains, RiskAccepts, Reaches, PostOnlyBlocked, FokBlocked, EngineInv;
    if AttemptOf(d, market, msg).None? {
      NoAttemptNoFills(d, market, msg);
    } else {
      AttemptOk(d, market, msg);
      FillsNameMakers(AttemptOf(d, market, msg).value.book, AttemptOf(d, market, msg).value.order);
    }
  }

  /** A daemon that starts with empty books and no positions has no net position in any state of such a run. */
  lemma NetStaysZero(d: State, market: U16, msgs: seq<Message>, n: nat, m: U16)
    requires Untraded(d) && NoOrphans(d, market, msgs) && n <= |msgs|
    ensures Risk.NetPosition(RunDaemon(d, market, msgs[..n]).risk, m) == 0
  {
    hide Inv, NoOrphans, RunDaemon;
    UntradedInv(d);
    RunIsZeroSum(d, market, msgs);
    assert NetKept(d.risk, RunDaemon(d, market, msgs[..n]).risk);
    Risk.FlatNet(d.risk.accounts, m);
  }
}
