/** What single messages do to the daemon, said in the terms of the message and the state before it. */
module DaemonAnswers {
  import opened Common
  import opened OrderBook
  import opened Ladder
  import opened BookInvariant
  import opened BookTheorems
  import opened BookRuns
  import opened BookAnswers
  import opened Daemon
  import opened DaemonLedger
  import Risk
  import Margin
  import Verdicts

  // ----- ids and terms -----

  /** Two new orders share an id exactly when accounts agree modulo 2^16 and nonces modulo 2^32. */
  lemma SharedIdIff(market: U16, a: NewOrderMessage, b: NewOrderMessage)
    ensures NewOrderId(market, a) == NewOrderId(market, b)
            <==> a.account % 65_536 == b.account % 65_536 && a.nonce % 4_294_967_296 == b.nonce % 4_294_967_296
  {
  }

  /** The order that a message puts to the matcher: its own terms, good till cancelled, and for a replace the old owner and side. */
  lemma AttemptTerms(d: State, market: U16, msg: Message)
    requires EngineInv(d.engine) && AttemptOf(d, market, msg).Some?
    ensures var o := AttemptOf(d, market, msg).value.order;
            && o.tif == Gtc && o.displayQuantity == 0
            && match msg
               case Placing(m) =>
                 && o.id.market == market && o.account == m.account && o.side == m.side
                 && o.quantity == m.quantity && o.price == m.price && o.flags == m.flags
               case Withdrawing(_) => false
               case Amending(m) =>
                 && o.id == Decode(m.orderId) && o.quantity == m.newQuantity && o.price == m.newPrice && o.flags == m.newFlags
                 && Context(o.account, o.id.market, o.side) == TrueOwner(d, o.id)
  {
    hide RiskAccepts, RemoveId, BookInv;
  }

  // ----- the risk check at the gate -----

  /**
   A new order reaches the matcher exactly when it is not reduce-only growth and
   the initial margin after its quantity has filled, in whatever pieces, is
   covered by the equity before it and the projected revaluation.  Otherwise
   nothing at all changes.
   */
  lemma NewOrderGate(d: State, market: U16, msg: NewOrderMessage, fills: seq<Risk.Fill>)
    requires market in d.risk.markets && d.risk.markets[market].markPrice != 0
    requires Margin.AllFor(fills, msg.account, market) && Margin.SumSigned(fills) == Risk.Signed(msg.side, msg.quantity)
    ensures var i := Margin.OrderIntent(msg.account, market, msg.side, msg.quantity, msg.price, msg.flags.reduceOnly);
            var equity := Margin.Summary(d.risk, msg.account, None).equity + Verdicts.Revaluation(d.risk, i);
            var covered := Margin.Summary(Risk.ApplyFills(d.risk, fills), msg.account, None).initialMargin <= equity;
            if covered && !Verdicts.GrowsReduceOnly(d.risk, i) then
              OnNewOrder(d, market, msg).engine == Submit(d.engine, NewOrderRequest(market, msg)).0
            else OnNewOrder(d, market, msg) == d
  {
    hide Submit, ProcessFills, Risk.ApplyFills, Margin.Summary, Margin.EvaluateOrder, Verdicts.Revaluation, Verdicts.GrowsReduceOnly;
    Verdicts.PreTradeExact(d.risk, NewOrderIntent(market, msg), fills);
  }

  /** In a market without a mark the check is the one with the order's own price for a mark. */
  lemma UnmarkedGate(d: State, market: U16, msg: NewOrderMessage)
    requires market in d.risk.markets && d.risk.markets[market].markPrice == 0 && msg.price != 0
    ensures RiskAccepts(d, market, msg) == RiskAccepts(d.(risk := Verdicts.Marked(d.risk, market, msg.price)), market, msg)
  {
    hide Margin.Summary;
    Verdicts.UnmarkedIsOrderPrice(d.risk, msg.account, Margin.IntentFill(NewOrderIntent(market, msg)));
  }

  /** In a market that is not configured no new order changes anything. */
  lemma UnknownMarketGate(d: State, market: U16, msg: NewOrderMessage)
    requires market !in d.risk.markets
    ensures OnNewOrder(d, market, msg) == d
  {
    Verdicts.VerdictCodes(d.risk, NewOrderIntent(market, msg));
    hide Submit, ProcessFills, Margin.EvaluateOrder;
  }

  // ----- the owner map -----

  /** A message whose order the matcher accepts leaves its own id remembered exactly if its order rests now; no other id is touched. */
  lemma OwnKeyExact(d: State, market: U16, msg: Message)
    requires Inv(d) && Coherent(Handle(d, market, msg)) && AttemptOf(d, market, msg).Some?
    ensures var a, d' := AttemptOf(d, market, msg).value, Handle(d, market, msg);
            var accepted := Place(a.book, a.order).result.accepted;
            && d'.resting - {Encode(a.order.id)} == d.resting - {Encode(a.order.id)}
            && (!accepted ==> d'.resting == d.resting)
            && (accepted ==> (Encode(a.order.id) in d'.resting <==> Rests(d', a.order.id)))
  {
    hide Place, BookInv, InMarket, Contains, MessageFills, AppliedFills, TrueOwner, Handle, AttemptOf, EngineInv, Coherent,
      TakerContext, Lookup, Fillable, Encode;
    var a, d' := AttemptOf(d, market, msg).value, Handle(d, market, msg);
    AttemptOk(d, market, msg);
    HandleKeepsEngine(d, market, msg);
    AttemptPlaced(d, market, msg);
    if Rests(d', a.order.id) {
      RememberedIsTrue(d', a.order.id);
    }
    if Place(a.book, a.order).result.resting {
      RestedOrder(a.book, a.order);
    }
  }

  lemma AttemptPlaced(d: State, market: U16, msg: Message)
    requires AttemptOf(d, market, msg).Some?
    ensures var a, d' := AttemptOf(d, market, msg).value, Handle(d, market, msg);
            && a.order.id.market in d'.engine && d'.engine[a.order.id.market] == Place(a.book, a.order).book
            && d'.resting == (if !Place(a.book, a.order).result.accepted then d.resting
                              else if Place(a.book, a.order).result.resting then
                                d.resting[Encode(a.order.id) := TakerContext(d, market, msg)]
                              else d.resting - {Encode(a.order.id)})
  {
    hide Place, RemoveId, Contains, RiskAccepts, ProcessFills;
  }

  /** A message that puts nothing to the matcher changes neither books nor risk nor owners, unless it is a cancel. */
  lemma NoAttemptNoChange(d: State, market: U16, msg: Message)
    requires AttemptOf(d, market, msg).None? && !msg.Withdrawing?
    ensures Handle(d, market, msg) == d
  {
    hide Place, RiskAccepts, ProcessFills, RemoveId;
  }

  // ----- configuration -----

  /** Every configured market ends with the parameters and the mark of its last entry. */
  lemma {:induction false} ConfiguredAsWritten(d: State, setups: seq<MarketSetup>, k: nat)
    requires k < |setups| && forall j :: k < j < |setups| ==> setups[j].market != setups[k].market
    ensures var d' := ConfigureAll(d, setups);
            && setups[k].market in d'.risk.markets
            && d'.risk.markets[setups[k].market] == Risk.MarketState(setups[k].config, setups[k].markPrice)
            && d'.risk.accounts == d.risk.accounts && d'.resting == d.resting
  {
    var before := setups[..|setups| - 1];
    ConfigureKeeps(d, before);
    if k < |before| {
      ConfiguredAsWritten(d, before, k);
    }
  }

  lemma {:induction false} ConfigureKeeps(d: State, setups: seq<MarketSetup>)
    ensures ConfigureAll(d, setups).risk.accounts == d.risk.accounts && ConfigureAll(d, setups).resting == d.resting
  {
    if setups != [] {
      ConfigureKeeps(d, setups[..|setups| - 1]);
    }
  }
}
