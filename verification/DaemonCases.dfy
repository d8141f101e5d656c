/**
 Accounts 1 and 65537 agree in their low sixteen bits, so their first orders
 share an id.  What that does to a daemon, started with a configured empty
 market, in a few messages.
 */
module DaemonCases {
  import opened Common
  import opened OrderBook
  import opened Ladder
  import opened BookInvariant
  import opened BookTheorems
  import opened BookRuns
  import opened MapSums
  import opened Daemon
  import opened DaemonLedger
  import Risk
  import Margin

  const PLAIN := Flags(false, false, false, false)

  function FirstOrder(account: U64, side: Side, quantity: int, price: int): NewOrderMessage {
    NewOrderMessage(account, 1, side, quantity, price, PLAIN)
  }

  // ----- single messages -----

  /** The verdict on a new order depends on its account and the markets alone. */
  lemma VerdictDependsOn(d: State, d': State, market: U16, msg: NewOrderMessage)
    requires Risk.AccountOf(d.risk, msg.account) == Risk.AccountOf(d'.risk, msg.account) && d.risk.markets == d'.risk.markets
    ensures RiskAccepts(d, market, msg) == RiskAccepts(d', market, msg)
  {
  }

  lemma AcceptedMarket(d: State, market: U16, msg: NewOrderMessage)
    requires RiskAccepts(d, market, msg)
    ensures market in d.risk.markets
  {
  }

  function RestingOrder(market: U16, msg: NewOrderMessage, sequence: nat): Order {
    Order(NewOrderRequest(market, msg), msg.quantity, msg.quantity, msg.quantity, sequence)
  }

  /** A plain order that crosses nothing comes to rest on its empty side. */
  lemma RestsAlone(d: State, market: U16, msg: NewOrderMessage)
    requires market in d.engine && RiskAccepts(d, market, msg) && msg.flags == PLAIN && msg.quantity > 0
    requires var b := d.engine[market];
             var makers := Queue(b, Opposite(msg.side));
             && Queue(b, msg.side) == [] && !HasId(makers, NewOrderId(market, msg))
             && (makers != [] ==> !Crosses(msg.side, msg.price, makers[0].request.price))
    ensures var b := d.engine[market];
            OnNewOrder(d, market, msg) ==
            State(d.engine[market := WithQueue(b, msg.side, [RestingOrder(market, msg, b.nextSequence)]).(nextSequence := b.nextSequence + 1)],
                  d.risk, d.resting[Encode(NewOrderId(market, msg)) := Context(msg.account, market, msg.side)])
  {
    hide RiskAccepts, Place;
    var b, req := d.engine[market], NewOrderRequest(market, msg);
    PlaceAlone(b, req);
    assert Refreshed(NewOrder(req, b.nextSequence)) == RestingOrder(market, msg, b.nextSequence);
    assert ProcessFills(d.risk, d.resting, [], Context(msg.account, market, msg.side)) == d.risk;
  }

  lemma PlaceAlone(b: Book, req: OrderRequest)
    requires req.flags == PLAIN && req.quantity > 0 && req.tif.Gtc?
    requires var makers := Queue(b, Opposite(req.side));
             && Queue(b, req.side) == [] && !HasId(makers, req.id)
             && (makers != [] ==> !Crosses(req.side, req.price, makers[0].request.price))
    ensures Place(b, req) ==
            Placement(WithQueue(b, req.side, [Refreshed(NewOrder(req, b.nextSequence))]).(nextSequence := b.nextSequence + 1),
                      OrderResult(true, false, true, 0, []))
  {
    assert Matched(b, req) == WalkResult([], Queue(b, Opposite(req.side)), req.quantity);
    assert AfterMatch(b, req) == b.(nextSequence := b.nextSequence + 1);
    assert !HasId(Queue(b, req.side), req.id);
    assert [Refreshed(NewOrder(req, b.nextSequence))] + [] == [Refreshed(NewOrder(req, b.nextSequence))];
  }

  /** A lone maker that the order crosses and exactly uses up. */
  lemma WalkOne(side: Side, limit: int, taker: OrderId, quantity: int, maker: Order)
    requires 0 < maker.remaining <= quantity && Crosses(side, limit, maker.request.price)
    ensures Walk(side, limit, taker, quantity, [maker])
            == WalkResult([FillEvent(maker.request.id, taker, maker.remaining, maker.request.price)], [], quantity - maker.remaining)
  {
    assert [maker][1..] == [];
    assert Walk(side, limit, taker, quantity - maker.remaining, []) == WalkResult([], [], quantity - maker.remaining);
  }

  lemma OneFill(risk: Risk.RiskState, resting: map<U64, Context>, fill: FillEvent, taker: Context)
    ensures ProcessFills(risk, resting, [fill], taker) == ApplyLegs(risk, resting, fill, taker)
  {
    assert [fill][..0] == [];
  }

  /** A plain order that exactly consumes the only order facing it. */
  lemma ExactMatch(d: State, market: U16, msg: NewOrderMessage, maker: Order)
    requires market in d.engine && RiskAccepts(d, market, msg) && msg.flags == PLAIN
    requires Queue(d.engine[market], Opposite(msg.side)) == [maker]
    requires maker.remaining == msg.quantity > 0 && Crosses(msg.side, msg.price, maker.request.price)
    ensures var id := NewOrderId(market, msg);
            var fill := FillEvent(maker.request.id, id, msg.quantity, maker.request.price);
            var b := d.engine[market];
            OnNewOrder(d, market, msg) ==
            State(d.engine[market := WithQueue(b, Opposite(msg.side), []).(nextSequence := b.nextSequence + 1)],
                  ApplyLegs(d.risk, d.resting, fill, Context(msg.account, market, msg.side)),
                  d.resting - {Encode(id)})
  {
    hide RiskAccepts, ApplyLegs;
    var req := NewOrderRequest(market, msg);
    WalkOne(msg.side, msg.price, req.id, msg.quantity, maker);
    var fill := FillEvent(maker.request.id, req.id, msg.quantity, maker.request.price);
    OneFill(d.risk, d.resting, fill, Context(msg.account, market, msg.side));
  }

  lemma LegsLeaveOthers(risk: Risk.RiskState, resting: map<U64, Context>, fill: FillEvent, taker: Context, a: U64)
    requires a != taker.account && (Encode(fill.maker) in resting ==> a != resting[Encode(fill.maker)].account)
    requires taker.market in risk.markets
    requires Encode(fill.maker) in resting ==> resting[Encode(fill.maker)].market == taker.market
    ensures Risk.AccountOf(ApplyLegs(risk, resting, fill, taker), a) == Risk.AccountOf(risk, a)
    ensures ApplyLegs(risk, resting, fill, taker).markets == risk.markets
  {
  }

  lemma {:induction false} RunMore(d: State, market: U16, msgs: seq<Message>, msg: Message)
    ensures RunDaemon(d, market, msgs + [msg]) == Handle(RunDaemon(d, market, msgs), market, msg)
  {
    assert (msgs + [msg])[..|msgs|] == msgs;
  }

  lemma RunOne(d: State, market: U16, msg: Message)
    ensures RunDaemon(d, market, [msg]) == Handle(d, market, msg)
  {
    assert [] + [msg] == [msg];
    RunMore(d, market, [], msg);
  }

  // ----- an owner is forgotten, and a net position appears -----

  /** One account offers five at the higher price, another bids for one at the lower; nothing crosses. */
  function Opening(market: U16, low: int, high: int): seq<Message> {
    [Placing(FirstOrder(1, Sell, 5, high)), Placing(FirstOrder(2, Buy, 1, low))]
  }

  /** Then account 65537 sells one to the bid, under the id of account 1's offer. */
  function Forgetting(market: U16, low: int, high: int): seq<Message> {
    Opening(market, low, high) + [Placing(FirstOrder(65537, Sell, 1, low))]
  }

  /** Then account 3 buys the offer. */
  function Breaking(market: U16, low: int, high: int): seq<Message> {
    Forgetting(market, low, high) + [Placing(FirstOrder(3, Buy, 5, high))]
  }

  /** An empty market whose risk checks would let each of the four orders pass. */
  ghost predicate ReadyForFour(d: State, market: U16, low: int, high: int) {
    && low < high && market in d.engine && d.engine[market] == EMPTY_BOOK
    && RiskAccepts(d, market, FirstOrder(1, Sell, 5, high)) && RiskAccepts(d, market, FirstOrder(2, Buy, 1, low))
    && RiskAccepts(d, market, FirstOrder(65537, Sell, 1, low)) && RiskAccepts(d, market, FirstOrder(3, Buy, 5, high))
  }

  lemma AfterOpening(d: State, market: U16, low: int, high: int)
    requires ReadyForFour(d, market, low, high)
    ensures var ask := RestingOrder(market, FirstOrder(1, Sell, 5, high), 1);
            var bid := RestingOrder(market, FirstOrder(2, Buy, 1, low), 2);
            RunDaemon(d, market, Opening(market, low, high)) ==
            State(d.engine[market := Book([bid], [ask], 3)], d.risk,
                  d.resting[Encode(ask.request.id) := Context(1, market, Sell)][Encode(bid.request.id) := Context(2, market, Buy)])
  {
    hide OnNewOrder, RiskAccepts, RunDaemon;
    var offer, bid := FirstOrder(1, Sell, 5, high), FirstOrder(2, Buy, 1, low);
    RestsAlone(d, market, offer);
    var d1 := OnNewOrder(d, market, offer);
    VerdictDependsOn(d, d1, market, bid);
    RestsAlone(d1, market, bid);
    RunOne(d, market, Placing(offer));
    RunMore(d, market, [Placing(offer)], Placing(bid));
    var ask := RestingOrder(market, offer, 1);
    assert d.engine[market := Book([], [ask], 2)][market := Book([RestingOrder(market, bid, 2)], [ask], 3)]
        == d.engine[market := Book([RestingOrder(market, bid, 2)], [ask], 3)];
    assert [Placing(offer)] + [Placing(bid)] == Opening(market, low, high);
  }

  /** The repeated id: account 1's offer stays in the book, and its owner is forgotten. */
  lemma SharedIdForgetsOwner(d: State, market: U16, low: int, high: int)
    requires ReadyForFour(d, market, low, high)
    ensures var ask := RestingOrder(market, FirstOrder(1, Sell, 5, high), 1);
            var before, after := RunDaemon(d, market, Opening(market, low, high)), RunDaemon(d, market, Forgetting(market, low, high));
            && Orphans(before, market, FirstOrder(65537, Sell, 1, low))
            && after.engine == d.engine[market := Book([], [ask], 4)]
            && Encode(ask.request.id) !in after.resting
            && after.risk == ApplyLegs(d.risk, before.resting,
                                       FillEvent(OrderId(market, 2, 1), OrderId(market, 1, 1), 1, low), Context(65537, market, Sell))
            && Encode(OrderId(market, 2, 1)) in before.resting
            && before.resting[Encode(OrderId(market, 2, 1))] == Context(2, market, Buy)
  {
    hide OnNewOrder, ApplyLegs, RiskAccepts, RunDaemon, Orphans;
    var sale := FirstOrder(65537, Sell, 1, low);
    var ask := RestingOrder(market, FirstOrder(1, Sell, 5, high), 1);
    var bid := RestingOrder(market, FirstOrder(2, Buy, 1, low), 2);
    AfterOpening(d, market, low, high);
    var d2 := RunDaemon(d, market, Opening(market, low, high));
    VerdictDependsOn(d, d2, market, sale);
    assert NewOrderId(market, sale) == ask.request.id == OrderId(market, 1, 1);
    ExactMatch(d2, market, sale, bid);
    RunMore(d, market, Opening(market, low, high), Placing(sale));
    assert d.engine[market := Book([bid], [ask], 3)][market := Book([], [ask], 4)] == d.engine[market := Book([], [ask], 4)];
    OrphansHere(d2, market, sale, ask, bid);
  }

  lemma OrphansHere(d: State, market: U16, sale: NewOrderMessage, ask: Order, bid: Order)
    requires market in d.engine && d.engine[market] == Book([bid], [ask], 3) && RiskAccepts(d, market, sale)
    requires sale.flags == PLAIN && sale.side.Sell? && sale.quantity == bid.remaining > 0 && sale.price == bid.request.price
    requires ask.request.id == NewOrderId(market, sale)
    ensures Orphans(d, market, sale)
  {
    hide RiskAccepts;
    assert Fillable(Sell, sale.price, [bid]) == bid.remaining + Fillable(Sell, sale.price, [bid][1..]);
    assert [ask][0].request.id == ask.request.id;
  }

  /**
   From every state with such an empty market, four messages leave a net
   position of five behind.
   */
  lemma SharedIdBreaksZeroSum(d: State, market: U16, low: int, high: int)
    requires ReadyForFour(d, market, low, high)
    ensures Risk.NetPosition(RunDaemon(d, market, Breaking(market, low, high)).risk, market) == Risk.NetPosition(d.risk, market) + 5
  {
    hide OnNewOrder, ApplyLegs, RiskAccepts, RunDaemon, Risk.NetPosition, Orphans;
    var lift, ask := FirstOrder(3, Buy, 5, high), RestingOrder(market, FirstOrder(1, Sell, 5, high), 1);
    SharedIdForgetsOwner(d, market, low, high);
    AcceptedMarket(d, market, lift);
    var d2, d3 := RunDaemon(d, market, Opening(market, low, high)), RunDaemon(d, market, Forgetting(market, low, high));
    var first := FillEvent(OrderId(market, 2, 1), OrderId(market, 1, 1), 1, low);
    LegsMoveNet(d.risk, d2.resting, first, Context(65537, market, Sell), market);
    LegsLeaveOthers(d.risk, d2.resting, first, Context(65537, market, Sell), 3);
    VerdictDependsOn(d, d3, market, lift);
    ExactMatch(d3, market, lift, ask);
    LegsMoveNet(d3.risk, d3.resting, FillEvent(ask.request.id, NewOrderId(market, lift), 5, high), Context(3, market, Buy), market);
    RunMore(d, market, Forgetting(market, low, high), Placing(lift));
  }

  // ----- a fill is lost -----

  function Quoting(market: U16, low: int, high: int): seq<Message> {
    [Placing(FirstOrder(1, Buy, 1, low)), Placing(FirstOrder(2, Sell, 1, high))]
  }

  /** Account 65537 asks for five where one is offered, under the id of account 1's bid. */
  function Losing(market: U16, low: int, high: int): seq<Message> {
    Quoting(market, low, high) + [Placing(FirstOrder(65537, Buy, 5, high))]
  }

  ghost predicate ReadyForThree(d: State, market: U16, low: int, high: int) {
    && low < high && market in d.engine && d.engine[market] == EMPTY_BOOK
    && RiskAccepts(d, market, FirstOrder(1, Buy, 1, low)) && RiskAccepts(d, market, FirstOrder(2, Sell, 1, high))
    && RiskAccepts(d, market, FirstOrder(65537, Buy, 5, high))
  }

  lemma AfterQuoting(d: State, market: U16, low: int, high: int)
    requires ReadyForThree(d, market, low, high)
    ensures var bid := RestingOrder(market, FirstOrder(1, Buy, 1, low), 1);
            var ask := RestingOrder(market, FirstOrder(2, Sell, 1, high), 2);
            var d2 := RunDaemon(d, market, Quoting(market, low, high));
            d2.engine == d.engine[market := Book([bid], [ask], 3)] && d2.risk == d.risk
  {
    hide OnNewOrder, RiskAccepts, RunDaemon;
    var bid, offer := FirstOrder(1, Buy, 1, low), FirstOrder(2, Sell, 1, high);
    RestsAlone(d, market, bid);
    var d1 := OnNewOrder(d, market, bid);
    VerdictDependsOn(d, d1, market, offer);
    RestsAlone(d1, market, offer);
    RunOne(d, market, Placing(bid));
    RunMore(d, market, [Placing(bid)], Placing(offer));
    var b := RestingOrder(market, bid, 1);
    assert d.engine[market := Book([b], [], 2)][market := Book([b], [RestingOrder(market, offer, 2)], 3)]
        == d.engine[market := Book([b], [RestingOrder(market, offer, 2)], 3)];
    assert [Placing(bid)] + [Placing(offer)] == Quoting(market, low, high);
  }

  /** A plain order that wants more than the lone maker offers, while its id rests on its own side. */
  lemma LeftoverRefused(d: State, market: U16, msg: NewOrderMessage, mine: Order, maker: Order)
    requires market in d.engine && d.engine[market] == Book([mine], [maker], 3) && RiskAccepts(d, market, msg)
    requires msg.flags == PLAIN && msg.side.Buy? && 0 < maker.remaining < msg.quantity
    requires Crosses(Buy, msg.price, maker.request.price) && mine.request.id == NewOrderId(market, msg)
    ensures var fill := FillEvent(maker.request.id, NewOrderId(market, msg), maker.remaining, maker.request.price);
            && LosesFills(d, market, Placing(msg)) && MessageFills(d, market, Placing(msg)) == [fill]
            && OnNewOrder(d, market, msg) == d.(engine := d.engine[market := Book([mine], [], 4)])
  {
    hide RiskAccepts;
    var b, req := d.engine[market], NewOrderRequest(market, msg);
    WalkOne(Buy, msg.price, req.id, msg.quantity, maker);
    assert Fillable(Buy, msg.price, [maker]) == maker.remaining + Fillable(Buy, msg.price, [maker][1..]);
    assert [mine][0].request.id == req.id;
    assert Place(b, req) == Placement(Book([mine], [], 4), Rejected(REJECT_DUPLICATE_ORDER_ID, Matched(b, req).fills));
  }

  /**
   From every state with such an empty market, three messages make the matcher
   trade account 2's offer away while no position at all has moved.
   */
  lemma SharedIdLosesAFill(d: State, market: U16, low: int, high: int)
    requires ReadyForThree(d, market, low, high)
    ensures var before, after := RunDaemon(d, market, Quoting(market, low, high)), RunDaemon(d, market, Losing(market, low, high));
            var msg := Placing(FirstOrder(65537, Buy, 5, high));
            && LosesFills(before, market, msg)
            && MessageFills(before, market, msg) == [FillEvent(OrderId(market, 2, 1), OrderId(market, 1, 1), 1, high)]
            && after.risk == d.risk
            && BookOf(before.engine, market).asks != [] && BookOf(after.engine, market).asks == []
  {
    hide OnNewOrder, RiskAccepts, RunDaemon, LosesFills, MessageFills;
    var want := FirstOrder(65537, Buy, 5, high);
    var bid := RestingOrder(market, FirstOrder(1, Buy, 1, low), 1);
    var ask := RestingOrder(market, FirstOrder(2, Sell, 1, high), 2);
    AfterQuoting(d, market, low, high);
    var d2 := RunDaemon(d, market, Quoting(market, low, high));
    VerdictDependsOn(d, d2, market, want);
    assert NewOrderId(market, want) == OrderId(market, 1, 1) == bid.request.id;
    LeftoverRefused(d2, market, want, bid, ask);
    RunMore(d, market, Quoting(market, low, high), Placing(want));
  }

  // ----- starting states -----

  /** Market 1 configured with a mark of 100, and four funded accounts. */
  function FundedStart(): State {
    var d := ConfigureAll(EMPTY_STATE, [MarketSetup(1, Risk.MarketConfig(1, 1000, 500), 100)]);
    d.(risk := Fund(Fund(Fund(Fund(d.risk, 1), 2), 3), 65537))
  }

  function Fund(risk: Risk.RiskState, a: U64): Risk.RiskState {
    Margin.Credit(risk, a, 1000)
  }

  lemma OneMarket(setup: MarketSetup)
    ensures ConfigureAll(EMPTY_STATE, [setup])
            == State(map[setup.market := EMPTY_BOOK], Risk.RiskState(map[], map[setup.market := Risk.MarketState(setup.config, setup.markPrice)]), map[])
  {
    assert [setup][..0] == [];
  }

  lemma SummaryFlat(risk: Risk.RiskState, a: U64, fill: Risk.Fill)
    requires Risk.AccountOf(risk, a).positions == map[]
    ensures var acc := Risk.AccountOf(risk, a);
            var x := Margin.Exposure(Risk.Signed(fill.side, fill.quantity), fill.price, false);
            var s := Margin.Summary(risk, a, Some(fill));
            && s.equity == acc.collateral + acc.realizedPnl
            && s.initialMargin == Margin.InitialTerm(risk.markets, Some(fill))(fill.market, x)
  {
    var m := fill.market;
    var xs := Margin.WithDelta(Margin.Held(Risk.AccountOf(risk, a)), Some(fill));
    assert xs - {m} == map[];
    SumTake(xs, Margin.EquityTerm(risk.markets, Some(fill)), m);
    SumTake(xs, Margin.InitialTerm(risk.markets, Some(fill)), m);
  }

  /** An account without positions may trade if its equity covers the initial margin. */
  lemma FlatAccountAccepted(d: State, market: U16, msg: NewOrderMessage)
    requires market in d.risk.markets && msg.flags == PLAIN && msg.quantity != 0
    requires Risk.AccountOf(d.risk, msg.account).positions == map[]
    requires var state := d.risk.markets[market];
             var price := if state.markPrice != 0 then state.markPrice else msg.price;
             Margin.ApplyBasisPoints(Abs(msg.quantity) * price * state.config.contractSize, state.config.initialMarginBp)
             <= Risk.AccountOf(d.risk, msg.account).collateral + Risk.AccountOf(d.risk, msg.account).realizedPnl
    ensures RiskAccepts(d, market, msg)
  {
    SummaryFlat(d.risk, msg.account, Margin.IntentFill(NewOrderIntent(market, msg)));
  }

  /** From funded accounts and a configured empty book: every account flat, and four messages later a net position of five. */
  lemma FundedStartBreaks()
    ensures Untraded(FundedStart())
    ensures Risk.NetPosition(FundedStart().risk, 1) == 0
    ensures Risk.NetPosition(RunDaemon(FundedStart(), 1, Breaking(1, 90, 100)).risk, 1) == 5
  {
    hide RiskAccepts, RunDaemon, Risk.NetPosition;
    var d := FundedStart();
    OneMarket(MarketSetup(1, Risk.MarketConfig(1, 1000, 500), 100));
    assert Margin.ApplyBasisPoints(100, 1000) == 10 && Margin.ApplyBasisPoints(500, 1000) == 50;
    FlatAccountAccepted(d, 1, FirstOrder(1, Sell, 5, 100));
    FlatAccountAccepted(d, 1, FirstOrder(2, Buy, 1, 90));
    FlatAccountAccepted(d, 1, FirstOrder(65537, Sell, 1, 90));
    FlatAccountAccepted(d, 1, FirstOrder(3, Buy, 5, 100));
    FlatStart(d.risk, 1);
    SharedIdBreaksZeroSum(d, 1, 90, 100);
  }

  lemma FlatStart(risk: Risk.RiskState, m: U16)
    requires forall a :: a in risk.accounts ==> risk.accounts[a].positions == map[]
    ensures Risk.NetPosition(risk, m) == 0
  {
    Risk.FlatNet(risk.accounts, m);
  }

  /** From the same start, three messages later a fill is lost. */
  lemma FundedStartLoses()
    ensures Risk.AccountOf(RunDaemon(FundedStart(), 1, Losing(1, 90, 100)).risk, 2).positions == map[]
    ensures MessageLegs(RunDaemon(FundedStart(), 1, Quoting(1, 90, 100)), 1, Placing(FirstOrder(65537, Buy, 5, 100)), 2, 1) == -1
  {
    hide RiskAccepts, RunDaemon, LosesFills, MessageFills;
    var d := FundedStart();
    OneMarket(MarketSetup(1, Risk.MarketConfig(1, 1000, 500), 100));
    assert Margin.ApplyBasisPoints(100, 1000) == 10 && Margin.ApplyBasisPoints(500, 1000) == 50;
    FlatAccountAccepted(d, 1, FirstOrder(1, Buy, 1, 90));
    FlatAccountAccepted(d, 1, FirstOrder(2, Sell, 1, 100));
    FlatAccountAccepted(d, 1, FirstOrder(65537, Buy, 5, 100));
    SharedIdLosesAFill(d, 1, 90, 100);
    AfterQuoting(d, 1, 90, 100);
    var before := RunDaemon(d, 1, Quoting(1, 90, 100));
    var ask := RestingOrder(1, FirstOrder(2, Sell, 1, 100), 2);
    assert before.engine[1].asks[0] == ask;
    OneLeg(before, FillEvent(OrderId(1, 2, 1), OrderId(1, 1, 1), 1, 100), Context(65537, 1, Buy), 2, 1);
  }

  lemma OneLeg(d: State, fill: FillEvent, taker: Context, a: U64, m: U16)
    requires Rests(d, fill.maker)
    ensures TrueLegs(d, [fill], taker, a, m)
            == SignedFor(TakerLeg(fill, taker), a, m) + SignedFor(TakerLeg(fill, TrueOwner(d, fill.maker)), a, m)
  {
    assert [fill][..0] == [];
  }

  /** Without any collateral, at prices not above zero in a market without a mark, the daemon's own start breaks as well. */
  lemma UnfundedStartBreaks(config: Risk.MarketConfig)
    requires config.contractSize > 0 && config.initialMarginBp >= 0
    ensures var d := ConfigureAll(EMPTY_STATE, [MarketSetup(1, config, 0)]);
            && Untraded(d) && Risk.NetPosition(d.risk, 1) == 0
            && Risk.NetPosition(RunDaemon(d, 1, Breaking(1, -1, 0)).risk, 1) == 5
  {
    hide RiskAccepts, RunDaemon, Risk.NetPosition;
    var d := ConfigureAll(EMPTY_STATE, [MarketSetup(1, config, 0)]);
    OneMarket(MarketSetup(1, config, 0));
    FreeOrder(d, FirstOrder(1, Sell, 5, 0));
    FreeOrder(d, FirstOrder(2, Buy, 1, -1));
    FreeOrder(d, FirstOrder(65537, Sell, 1, -1));
    FreeOrder(d, FirstOrder(3, Buy, 5, 0));
    FlatStart(d.risk, 1);
    SharedIdBreaksZeroSum(d, 1, -1, 0);
  }

  /** From the same start, three messages later a fill is lost. */
  lemma UnfundedStartLoses(config: Risk.MarketConfig)
    requires config.contractSize > 0 && config.initialMarginBp >= 0
    ensures var d := ConfigureAll(EMPTY_STATE, [MarketSetup(1, config, 0)]);
            var msg := Placing(FirstOrder(65537, Buy, 5, 0));
            && LosesFills(RunDaemon(d, 1, Quoting(1, -1, 0)), 1, msg)
            && MessageFills(RunDaemon(d, 1, Quoting(1, -1, 0)), 1, msg) == [FillEvent(OrderId(1, 2, 1), OrderId(1, 1, 1), 1, 0)]
            && RunDaemon(d, 1, Losing(1, -1, 0)).risk == d.risk && d.risk.accounts == map[]
  {
    hide RiskAccepts, RunDaemon, LosesFills, MessageFills;
    var d := ConfigureAll(EMPTY_STATE, [MarketSetup(1, config, 0)]);
    OneMarket(MarketSetup(1, config, 0));
    FreeOrder(d, FirstOrder(1, Buy, 1, -1));
    FreeOrder(d, FirstOrder(2, Sell, 1, 0));
    FreeOrder(d, FirstOrder(65537, Buy, 5, 0));
    SharedIdLosesAFill(d, 1, -1, 0);
  }

  lemma FreeOrder(d: State, msg: NewOrderMessage)
    requires 1 in d.risk.markets && d.risk.markets[1].markPrice == 0 && d.risk.accounts == map[]
    requires d.risk.markets[1].config.contractSize > 0 && d.risk.markets[1].config.initialMarginBp >= 0
    requires msg.flags == PLAIN && msg.quantity > 0 && msg.price <= 0
    ensures RiskAccepts(d, 1, msg)
  {
    var config := d.risk.markets[1].config;
    hide RiskAccepts;
    FreeMargin(msg.quantity, msg.price, config.contractSize, config.initialMarginBp);
    FlatAccountAccepted(d, 1, msg);
  }

  lemma FreeMargin(quantity: nat, price: int, size: nat, bp: nat)
    requires price <= 0
    ensures Margin.ApplyBasisPoints(Abs(quantity) * price * size, bp) <= 0
  {
    assert Abs(quantity) * price <= 0;
    var notional := Abs(quantity) * price * size;
    assert notional <= 0;
    assert notional * bp <= 0;
  }
}
