/**
 Profit over whole runs of the daemon: fills move total profit by rounding
 alone, and the rounding is bounded.
 */
module DaemonProfit {
  import opened Common
  import opened OrderBook
  import opened BookInvariant
  import opened BookTheorems
  import opened BookRuns
  import opened Daemon
  import opened DaemonLedger
  import Risk

  // ----- the rounding of a message -----

  /** The rounding that the applied legs of a list of fills add, per unit of contract size. */
  function LegsRounding(risk: Risk.RiskState, resting: map<U64, Context>, fills: seq<FillEvent>, taker: Context): int {
    if fills == [] then 0
    else
      var before, fill := fills[..|fills| - 1], fills[|fills| - 1];
      var mid := ProcessFills(risk, resting, before, taker);
      LegsRounding(risk, resting, before, taker)
      + Risk.FillRounding(mid, TakerLeg(fill, taker))
      + if Encode(fill.maker) in resting then
          Risk.FillRounding(Risk.ApplyFill(mid, TakerLeg(fill, taker)), TakerLeg(fill, resting[Encode(fill.maker)]))
        else 0
  }

  /** Contract sizes as configured. */
  ghost predicate SizesOf(risk: Risk.RiskState, sizes: U16 -> int) {
    forall m :: sizes(m) == Risk.MarketOf(risk, m).config.contractSize
  }

  /** Fills with known makers move total profit by rounding alone, at any marks. */
  lemma {:induction false} FillsMoveProfit(risk: Risk.RiskState, resting: map<U64, Context>, fills: seq<FillEvent>, taker: Context,
                                           sizes: U16 -> int, marks: U16 -> int)
    requires MakersKnown(fills, resting, taker) && SizesOf(risk, sizes)
    ensures var risk' := ProcessFills(risk, resting, fills, taker);
            && SizesOf(risk', sizes)
            && Risk.TotalProfit(risk', sizes, marks) == Risk.TotalProfit(risk, sizes, marks)
               + LegsRounding(risk, resting, fills, taker) * sizes(taker.market)
  {
    hide Risk.ApplyFill, Risk.TotalProfit, Risk.NetPosition, Risk.FillRounding, SizesOf;
    if fills != [] {
      var before, fill := fills[..|fills| - 1], fills[|fills| - 1];
      assert Remembered(fill.maker, resting, taker);
      var mid := ProcessFills(risk, resting, before, taker);
      var t, k := TakerLeg(fill, taker), TakerLeg(fill, resting[Encode(fill.maker)]);
      FillsMoveProfit(risk, resting, before, taker, sizes, marks);
      SizesKept(mid, t, sizes);
      SizesKept(Risk.ApplyFill(mid, t), k, sizes);
      Risk.TradeIsZeroSum(mid, t, k, sizes, marks);
      Distribute(LegsRounding(risk, resting, before, taker), Risk.FillRounding(mid, t),
                 Risk.FillRounding(Risk.ApplyFill(mid, t), k), sizes(taker.market));
    }
  }

  lemma SizesKept(risk: Risk.RiskState, fill: Risk.Fill, sizes: U16 -> int)
    requires SizesOf(risk, sizes)
    ensures SizesOf(Risk.ApplyFill(risk, fill), sizes)
    ensures sizes(fill.market) == Risk.MarketOf(risk, fill.market).config.contractSize
  {
  }

  lemma Distribute(a: int, r: int, r': int, size: int)
    ensures a * size + (r + r') * size == (a + r + r') * size
  {
  }

  /** The drift of total profit that one message causes. */
  ghost function MessageDrift(d: State, market: U16, msg: Message, sizes: U16 -> int): int {
    var taker := TakerContext(d, market, msg);
    LegsRounding(d.risk, d.resting, AppliedFills(d, market, msg), taker) * sizes(taker.market)
  }

  /** In any state, a message that keeps the net positions moves total profit by rounding alone. */
  lemma MessageMovesProfit(d: State, market: U16, msg: Message, sizes: U16 -> int, marks: U16 -> int)
    requires EngineInv(d.engine) && KeepsNet(d, market, msg) && SizesOf(d.risk, sizes)
    ensures SizesOf(Handle(d, market, msg).risk, sizes)
    ensures Risk.TotalProfit(Handle(d, market, msg).risk, sizes, marks)
            == Risk.TotalProfit(d.risk, sizes, marks) + MessageDrift(d, market, msg, sizes)
  {
    hide Handle, EngineInv, SizesOf, Risk.TotalProfit, AppliedFills, LegsRounding, MakersKnown, KeepsNet, NetKept;
    HandledRisk(d, market, msg);
    MessageKeepsNetIff(d, market, msg);
    AppliedPositive(d, market, msg);
    FillsKeepNetIff(d.risk, d.resting, AppliedFills(d, market, msg), TakerContext(d, market, msg));
    FillsMoveProfit(d.risk, d.resting, AppliedFills(d, market, msg), TakerContext(d, market, msg), sizes, marks);
  }

  // ----- whole runs -----

  ghost function RunDrift(d: State, market: U16, msgs: seq<Message>, sizes: U16 -> int): int {
    if msgs == [] then 0
    else
      var before := msgs[..|msgs| - 1];
      RunDrift(d, market, before, sizes) + MessageDrift(RunDaemon(d, market, before), market, msgs[|msgs| - 1], sizes)
  }

  lemma AllKeepNetBefore(d: State, market: U16, msgs: seq<Message>)
    requires msgs != [] && AllKeepNet(d, market, msgs)
    ensures AllKeepNet(d, market, msgs[..|msgs| - 1])
    ensures KeepsNet(RunDaemon(d, market, msgs[..|msgs| - 1]), market, msgs[|msgs| - 1])
  {
    var before := msgs[..|msgs| - 1];
    hide KeepsNet, Handle;
    forall n | 0 <= n < |before|
      ensures KeepsNet(RunDaemon(d, market, before[..n]), market, before[n])
    {
      assert before[..n] == msgs[..n];
    }
  }

  /** While every message keeps the net positions, total profit at any marks moves by rounding alone. */
  lemma {:induction false} RunMovesProfit(d: State, market: U16, msgs: seq<Message>, sizes: U16 -> int, marks: U16 -> int)
    requires EngineInv(d.engine) && AllKeepNet(d, market, msgs) && SizesOf(d.risk, sizes)
    ensures SizesOf(RunDaemon(d, market, msgs).risk, sizes)
    ensures Risk.TotalProfit(RunDaemon(d, market, msgs).risk, sizes, marks)
            == Risk.TotalProfit(d.risk, sizes, marks) + RunDrift(d, market, msgs, sizes)
  {
    hide Handle, EngineInv, SizesOf, Risk.TotalProfit, AllKeepNet, KeepsNet, MessageDrift;
    if msgs != [] {
      var before := msgs[..|msgs| - 1];
      AllKeepNetBefore(d, market, msgs);
      RunMovesProfit(d, market, before, sizes, marks);
      RunKeepsEngine(d, market, before);
      MessageMovesProfit(RunDaemon(d, market, before), market, msgs[|msgs| - 1], sizes, marks);
    }
  }

  /** Total profit has moved by so much, at all marks. */
  ghost predicate MovedBy(risk: Risk.RiskState, risk': Risk.RiskState, sizes: U16 -> int, drift: int) {
    forall marks: U16 -> int :: Risk.TotalProfit(risk', sizes, marks) == Risk.TotalProfit(risk, sizes, marks) + drift
  }

  /** In every state of the run, total profit has moved by the rounding so far, at all marks. */
  ghost predicate RoundsThroughout(d: State, market: U16, msgs: seq<Message>, sizes: U16 -> int) {
    forall n :: 0 <= n <= |msgs| ==> MovedBy(d.risk, RunDaemon(d, market, msgs[..n]).risk, sizes, RunDrift(d, market, msgs[..n], sizes))
  }

  /** Profit that moves alike at all marks leaves the net positions alone. */
  lemma MovedAlikeKeepsNet(risk: Risk.RiskState, risk': Risk.RiskState, sizes: U16 -> int, drift: int)
    requires MovedBy(risk, risk', sizes, drift) && forall m :: sizes(m) != 0
    ensures NetKept(risk, risk')
  {
    hide Risk.TotalProfit, Risk.NetPosition;
    var marks := (m: U16) => 0;
    forall m: U16
      ensures Risk.NetPosition(risk', m) == Risk.NetPosition(risk, m)
    {
      Risk.MarkMovesProfit(risk, sizes, marks, m);
      Risk.MarkMovesProfit(risk', sizes, marks, m);
      assert Risk.TotalProfit(risk', sizes, marks) == Risk.TotalProfit(risk, sizes, marks) + drift;
      assert Risk.TotalProfit(risk', sizes, Risk.Raised(marks, m)) == Risk.TotalProfit(risk, sizes, Risk.Raised(marks, m)) + drift;
      SameFactor(Risk.NetPosition(risk', m), Risk.NetPosition(risk, m), sizes(m));
    }
  }

  lemma SameFactor(a: int, b: int, size: int)
    requires a * size == b * size && size != 0
    ensures a == b
  {
    Risk.ZeroProduct(a - b, size);
    assert (a - b) * size == a * size - b * size;
  }

  /**
   With contract sizes other than zero, total profit at all marks moves by
   rounding alone throughout a run exactly when every message keeps the net
   positions.
   */
  lemma RunMovesProfitIff(d: State, market: U16, msgs: seq<Message>, sizes: U16 -> int)
    requires EngineInv(d.engine) && SizesOf(d.risk, sizes) && forall m :: sizes(m) != 0
    ensures RoundsThroughout(d, market, msgs, sizes) <==> AllKeepNet(d, market, msgs)
  {
    hide Handle, EngineInv, SizesOf, Risk.TotalProfit, KeepsNet, RunDrift, RunDaemon, NetKept, MovedBy;
    if RoundsThroughout(d, market, msgs, sizes) {
      forall n | 0 <= n <= |msgs|
        ensures NetKept(d.risk, RunDaemon(d, market, msgs[..n]).risk)
      {
        MovedAlikeKeepsNet(d.risk, RunDaemon(d, market, msgs[..n]).risk, sizes, RunDrift(d, market, msgs[..n], sizes));
      }
      RunKeepsNetIff(d, market, msgs);
    }
    if AllKeepNet(d, market, msgs) {
      forall n | 0 <= n <= |msgs|
        ensures MovedBy(d.risk, RunDaemon(d, market, msgs[..n]).risk, sizes, RunDrift(d, market, msgs[..n], sizes))
      {
        PrefixRounds(d, market, msgs, sizes, n);
      }
    }
  }

  lemma PrefixRounds(d: State, market: U16, msgs: seq<Message>, sizes: U16 -> int, n: nat)
    requires EngineInv(d.engine) && SizesOf(d.risk, sizes) && AllKeepNet(d, market, msgs) && n <= |msgs|
    ensures MovedBy(d.risk, RunDaemon(d, market, msgs[..n]).risk, sizes, RunDrift(d, market, msgs[..n], sizes))
  {
    hide Handle, EngineInv, SizesOf, Risk.TotalProfit, KeepsNet, RunDrift, RunDaemon;
    var prefix := msgs[..n];
    forall k | 0 <= k < |prefix|
      ensures KeepsNet(RunDaemon(d, market, prefix[..k]), market, prefix[k])
    {
      assert prefix[..k] == msgs[..k];
    }
    forall marks: U16 -> int
      ensures Risk.TotalProfit(RunDaemon(d, market, prefix).risk, sizes, marks)
              == Risk.TotalProfit(d.risk, sizes, marks) + RunDrift(d, market, prefix, sizes)
    {
      RunMovesProfit(d, market, prefix, sizes, marks);
    }
  }

  // ----- how far total profit can drift -----

  /** The most that the applied legs of a list of fills can round, per unit of contract size. */
  function LegsBound(risk: Risk.RiskState, resting: map<U64, Context>, fills: seq<FillEvent>, taker: Context): nat {
    if fills == [] then 0
    else
      var before, fill := fills[..|fills| - 1], fills[|fills| - 1];
      var mid := ProcessFills(risk, resting, before, taker);
      LegsBound(risk, resting, before, taker)
      + Risk.FillRoundingBound(mid, TakerLeg(fill, taker))
      + if Encode(fill.maker) in resting then
          Risk.FillRoundingBound(Risk.ApplyFill(mid, TakerLeg(fill, taker)), TakerLeg(fill, resting[Encode(fill.maker)]))
        else 0
  }

  lemma {:induction false} LegsBounded(risk: Risk.RiskState, resting: map<U64, Context>, fills: seq<FillEvent>, taker: Context)
    requires forall k :: 0 <= k < |fills| ==> fills[k].price >= 0
    requires Risk.EntriesNonNegative(risk)
    ensures Risk.EntriesNonNegative(ProcessFills(risk, resting, fills, taker))
    ensures Abs(LegsRounding(risk, resting, fills, taker)) <= LegsBound(risk, resting, fills, taker)
  {
    hide Risk.ApplyFill, Risk.FillRounding, Risk.FillRoundingBound, Risk.EntriesNonNegative;
    if fills != [] {
      var before, fill := fills[..|fills| - 1], fills[|fills| - 1];
      LegsBounded(risk, resting, before, taker);
      var mid := ProcessFills(risk, resting, before, taker);
      Risk.FillRoundingBounded(mid, TakerLeg(fill, taker));
      if Encode(fill.maker) in resting {
        Risk.FillRoundingBounded(Risk.ApplyFill(mid, TakerLeg(fill, taker)), TakerLeg(fill, resting[Encode(fill.maker)]));
      }
    }
  }

  ghost predicate PricesNonNegative(q: seq<Order>) {
    forall i :: 0 <= i < |q| ==> q[i].request.price >= 0
  }

  ghost predicate BookPricesNonNegative(b: Book) {
    PricesNonNegative(b.bids) && PricesNonNegative(b.asks)
  }

  ghost predicate AllPricesNonNegative(d: State) {
    && Risk.EntriesNonNegative(d.risk)
    && forall m :: m in d.engine ==> BookPricesNonNegative(d.engine[m])
  }

  predicate MessagePriceNonNegative(msg: Message) {
    match msg
    case Placing(order) => order.price >= 0
    case Withdrawing(_) => true
    case Amending(amendment) => amendment.newPrice >= 0
  }

  lemma FillPrices(b: Book, req: OrderRequest)
    requires BookInv(b) && BookPricesNonNegative(b)
    ensures forall k :: 0 <= k < |Place(b, req).result.fills| ==> Place(b, req).result.fills[k].price >= 0
  {
    hide Place, BookInv, PostOnlyBlocked, FokBlocked, Reaches;
    FillsNameMakers(b, req);
    assert forall k :: 0 <= k < |Queue(b, Opposite(req.side))| ==> Queue(b, Opposite(req.side))[k].request.price >= 0;
  }

  lemma MatchPrices(b: Book, req: OrderRequest)
    requires BookInv(b) && BookPricesNonNegative(b)
    ensures BookPricesNonNegative(AfterMatch(b, req))
  {
    hide Walk, BookInv;
    MatchKeeps(b, req);
    var side := Opposite(req.side);
    var left := Queue(AfterMatch(b, req), side);
    forall i | 0 <= i < |left|
      ensures left[i].request.price >= 0
    {
      assert HasRequest(Queue(b, side), left[i].request);
    }
  }

  /** A placement at a price not below zero keeps the book's prices there, and fills at such prices. */
  lemma PlacePrices(b: Book, req: OrderRequest)
    requires BookInv(b) && BookPricesNonNegative(b) && req.price >= 0
    ensures BookPricesNonNegative(Place(b, req).book)
    ensures forall k :: 0 <= k < |Place(b, req).result.fills| ==> Place(b, req).result.fills[k].price >= 0
  {
    hide BookInv, Walk, Insert, Fillable, AfterMatch;
    FillPrices(b, req);
    MatchPrices(b, req);
    if Place(b, req).result.resting {
      PlaceRests(b, req);
      InsertMembers(req.side, Queue(b, req.side), Refreshed(Unmatched(b, req)));
    }
  }

  lemma RemovalPrices(b: Book, id: OrderId)
    requires BookPricesNonNegative(b)
    ensures BookPricesNonNegative(RemoveId(b, id))
  {
  }

  lemma EmptyPrices()
    ensures BookPricesNonNegative(EMPTY_BOOK)
  {
  }

  lemma BookOfPrices(e: Engine, market: U16)
    requires forall m :: m in e ==> BookPricesNonNegative(e[m])
    ensures BookPricesNonNegative(BookOf(e, market))
  {
    hide BookPricesNonNegative;
    EmptyPrices();
  }

  /** A message at a price not below zero keeps all resting prices there. */
  lemma MessageKeepsPrices(d: State, market: U16, msg: Message)
    requires EngineInv(d.engine) && AllPricesNonNegative(d) && MessagePriceNonNegative(msg)
    ensures forall m :: m in Handle(d, market, msg).engine ==> BookPricesNonNegative(Handle(d, market, msg).engine[m])
  {
    hide Place, BookInv, InMarket, ProcessFills, BookKnown, BookPricesNonNegative, RemoveId, Lookup, RiskAccepts, Contains;
    match msg
    case Placing(order) =>
      BookOfInv(d.engine, market);
      BookOfPrices(d.engine, market);
      PlacePrices(BookOf(d.engine, market), NewOrderRequest(market, order));
    case Withdrawing(orderId) =>
      var id := Decode(orderId);
      if id.market in d.engine {
        RemovalPrices(d.engine[id.market], id);
      }
    case Amending(amendment) =>
      var id := Decode(amendment.orderId);
      if Rests(d, id) {
        var b := d.engine[id.market];
        RemoveIdKeeps(b, id);
        RemovalPrices(b, id);
        PlacePrices(RemoveId(b, id), ReplacementRequest(Lookup(b, id), AmendRequest(amendment)));
      }
  }

  lemma AppliedPrices(d: State, market: U16, msg: Message)
    requires EngineInv(d.engine) && AllPricesNonNegative(d)
    ensures forall k :: 0 <= k < |AppliedFills(d, market, msg)| ==> AppliedFills(d, market, msg)[k].price >= 0
  {
    hide MessageFills, AppliedFills, Place, BookInv, InMarket, Contains, RiskAccepts, EngineInv, BookPricesNonNegative, RemoveId;
    if AttemptOf(d, market, msg).None? {
      NoAttemptNoFills(d, market, msg);
    } else {
      var a := AttemptOf(d, market, msg).value;
      AttemptOk(d, market, msg);
      if msg.Placing? {
        BookOfPrices(d.engine, market);
      } else {
        var id := Decode(msg.amendment.orderId);
        RemovalPrices(d.engine[id.market], id);
      }
      FillPrices(a.book, a.order);
    }
  }

  function Times(bound: nat, size: int): nat {
    bound * Abs(size)
  }

  ghost function MessageDriftBound(d: State, market: U16, msg: Message, sizes: U16 -> int): nat {
    var taker := TakerContext(d, market, msg);
    Times(LegsBound(d.risk, d.resting, AppliedFills(d, market, msg), taker), sizes(taker.market))
  }

  ghost function RunDriftBound(d: State, market: U16, msgs: seq<Message>, sizes: U16 -> int): nat {
    if msgs == [] then 0
    else
      var before := msgs[..|msgs| - 1];
      RunDriftBound(d, market, before, sizes) + MessageDriftBound(RunDaemon(d, market, before), market, msgs[|msgs| - 1], sizes)
  }

  lemma ScaledBound(x: int, bound: nat, size: int)
    requires Abs(x) <= bound
    ensures Abs(x * size) <= Times(bound, size)
  {
    assert Abs(x * size) == Abs(x) * Abs(size);
    assert (bound - Abs(x)) * Abs(size) >= 0;
  }

  lemma MessageWithinBound(d: State, market: U16, msg: Message, sizes: U16 -> int)
    requires EngineInv(d.engine) && AllPricesNonNegative(d) && MessagePriceNonNegative(msg)
    ensures AllPricesNonNegative(Handle(d, market, msg))
    ensures Abs(MessageDrift(d, market, msg, sizes)) <= MessageDriftBound(d, market, msg, sizes)
  {
    hide Handle, EngineInv, BookPricesNonNegative, Risk.EntriesNonNegative, AppliedFills, LegsRounding, LegsBound;
    MessageKeepsPrices(d, market, msg);
    AppliedPrices(d, market, msg);
    HandledRisk(d, market, msg);
    var fills, taker := AppliedFills(d, market, msg), TakerContext(d, market, msg);
    LegsBounded(d.risk, d.resting, fills, taker);
    ScaledBound(LegsRounding(d.risk, d.resting, fills, taker), LegsBound(d.risk, d.resting, fills, taker), sizes(taker.market));
  }

  /** In any run at prices not below zero the rounding stays within its bound. */
  lemma {:induction false} DriftWithinBound(d: State, market: U16, msgs: seq<Message>, sizes: U16 -> int)
    requires EngineInv(d.engine) && AllPricesNonNegative(d)
    requires forall i :: 0 <= i < |msgs| ==> MessagePriceNonNegative(msgs[i])
    ensures AllPricesNonNegative(RunDaemon(d, market, msgs))
    ensures Abs(RunDrift(d, market, msgs, sizes)) <= RunDriftBound(d, market, msgs, sizes)
  {
    hide Handle, EngineInv, AllPricesNonNegative, MessageDrift, MessageDriftBound, MessagePriceNonNegative;
    if msgs != [] {
      var before := msgs[..|msgs| - 1];
      DriftWithinBound(d, market, before, sizes);
      RunKeepsEngine(d, market, before);
      MessageWithinBound(RunDaemon(d, market, before), market, msgs[|msgs| - 1], sizes);
    }
  }

  /**
   Over every run at prices not below zero whose messages keep the net
   positions, total profit at any marks moves by at most the sizes that
   extending fills reach, less one each, times the contract size.
   */
  lemma RunProfitWithinBound(d: State, market: U16, msgs: seq<Message>, sizes: U16 -> int, marks: U16 -> int)
    requires EngineInv(d.engine) && AllKeepNet(d, market, msgs) && SizesOf(d.risk, sizes) && AllPricesNonNegative(d)
    requires forall i :: 0 <= i < |msgs| ==> MessagePriceNonNegative(msgs[i])
    ensures Abs(Risk.TotalProfit(RunDaemon(d, market, msgs).risk, sizes, marks) - Risk.TotalProfit(d.risk, sizes, marks))
            <= RunDriftBound(d, market, msgs, sizes)
  {
    hide RunDaemon, EngineInv, AllPricesNonNegative, AllKeepNet, RunDrift, RunDriftBound, Risk.TotalProfit, SizesOf;
    RunMovesProfit(d, market, msgs, sizes, marks);
    DriftWithinBound(d, market, msgs, sizes);
  }
}
