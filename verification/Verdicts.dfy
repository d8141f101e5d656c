/** What margin, the pre-trade check and the liquidation verdict come to, said without the code that computes them. */
module Verdicts {
  import opened Common
  import opened MapSums
  import opened Risk
  import opened Margin

  // ----- margins, one position at a time -----

  /** A requirement in basis points is the least whole amount that covers it. */
  lemma BasisPointsRoundUp(notional: int, bp: int)
    requires notional >= 0 && bp >= 0
    ensures var r := ApplyBasisPoints(notional, bp);
            r >= 0 && r * 10_000 >= notional * bp && (r - 1) * 10_000 < notional * bp
  {
    assert notional * bp >= 0;
  }

  /** The same account without its position in a market. */
  function WithoutPosition(st: RiskState, a: U64, m: U16): RiskState {
    var acc := AccountOf(st, a);
    st.(accounts := st.accounts[a := acc.(positions := acc.positions - {m})])
  }

  /** A position in a known market is valued at its mark, or at its own entry price while there is none. */
  function ValuedAt(st: RiskState, m: U16, p: Position): int {
    if MarketOf(st, m).markPrice != 0 then MarketOf(st, m).markPrice else p.entryPrice
  }

  lemma HeldWithout(acc: Account, m: U16)
    ensures Held(acc.(positions := acc.positions - {m})) == Held(acc) - {m}
  {
  }

  /** What a position adds to its account's summary: its revaluation, and both requirements, each rounded up on its own. */
  lemma PositionCounts(st: RiskState, a: U64, m: U16)
    requires m in AccountOf(st, a).positions && m in st.markets
    requires var c := st.markets[m].config; c.contractSize >= 0 && c.initialMarginBp >= 0 && c.maintenanceMarginBp >= 0
    requires ValuedAt(st, m, AccountOf(st, a).positions[m]) >= 0
    ensures var p, c := AccountOf(st, a).positions[m], st.markets[m].config;
            var price := ValuedAt(st, m, p);
            var whole, without := Summary(st, a, None), Summary(WithoutPosition(st, a, m), a, None);
            var notional := Abs(p.quantity) * price * c.contractSize;
            var initial, maintenance := whole.initialMargin - without.initialMargin, whole.maintenanceMargin - without.maintenanceMargin;
            && whole.equity - without.equity == p.quantity * (price - p.entryPrice) * c.contractSize
            && initial * 10_000 >= notional * c.initialMarginBp && (initial - 1) * 10_000 < notional * c.initialMarginBp
            && maintenance * 10_000 >= notional * c.maintenanceMarginBp && (maintenance - 1) * 10_000 < notional * c.maintenanceMarginBp
  {
    var acc, p, c := AccountOf(st, a), AccountOf(st, a).positions[m], st.markets[m].config;
    var xs, price := Held(acc), ValuedAt(st, m, AccountOf(st, a).positions[m]);
    var notional := Abs(p.quantity) * price * c.contractSize;
    HeldWithout(acc, m);
    SumTake(xs, EquityTerm(st.markets, None), m);
    SumTake(xs, InitialTerm(st.markets, None), m);
    SumTake(xs, MaintenanceTerm(st.markets, None), m);
    NotionalNonNegative(p.quantity, price, c.contractSize);
    BasisPointsRoundUp(notional, c.initialMarginBp);
    BasisPointsRoundUp(notional, c.maintenanceMarginBp);
    PositionTerms(st, acc, m);
    hide ApplyBasisPoints, Notional, EquityTerm, InitialTerm, MaintenanceTerm, Held;
    SummaryIs(st, a);
    SummaryIs(WithoutPosition(st, a, m), a);
  }

  lemma SummaryIs(st: RiskState, a: U64)
    ensures var acc, xs := AccountOf(st, a), Held(AccountOf(st, a));
            Summary(st, a, None) == MarginSummary(acc.collateral + acc.realizedPnl + Sum(xs, EquityTerm(st.markets, None)),
                                                  Sum(xs, InitialTerm(st.markets, None)), Sum(xs, MaintenanceTerm(st.markets, None)))
  {
  }

  lemma PositionTerms(st: RiskState, acc: Account, m: U16)
    requires m in acc.positions && m in st.markets
    ensures var p, c, xs := acc.positions[m], st.markets[m].config, Held(acc);
            var price := ValuedAt(st, m, p);
            var notional := Abs(p.quantity) * price * c.contractSize;
            && At(xs, EquityTerm(st.markets, None), m) == p.quantity * (price - p.entryPrice) * c.contractSize
            && At(xs, InitialTerm(st.markets, None), m) == ApplyBasisPoints(notional, c.initialMarginBp)
            && At(xs, MaintenanceTerm(st.markets, None), m) == ApplyBasisPoints(notional, c.maintenanceMarginBp)
  {
    if acc.positions[m].quantity == 0 {
      NothingRequired(st.markets[m].config.initialMarginBp);
      NothingRequired(st.markets[m].config.maintenanceMarginBp);
    }
  }

  lemma NothingRequired(bp: int)
    ensures ApplyBasisPoints(0, bp) == 0
  {
  }

  /** A position in a market that is not configured adds nothing. */
  lemma UnknownMarketCountsNothing(st: RiskState, a: U64, m: U16)
    requires m !in st.markets
    ensures Summary(st, a, None) == Summary(WithoutPosition(st, a, m), a, None)
  {
    var xs := Held(AccountOf(st, a));
    HeldWithout(AccountOf(st, a), m);
    SumTake(xs, EquityTerm(st.markets, None), m);
    SumTake(xs, InitialTerm(st.markets, None), m);
    SumTake(xs, MaintenanceTerm(st.markets, None), m);
  }

  /** Without positions only the two balances are left. */
  lemma FlatSummary(st: RiskState, a: U64)
    requires AccountOf(st, a).positions == map[]
    ensures Summary(st, a, None) == MarginSummary(AccountOf(st, a).collateral + AccountOf(st, a).realizedPnl, 0, 0)
  {
    assert Held(AccountOf(st, a)) == map[];
  }

  function Marked(st: RiskState, m: U16, price: int): RiskState
    requires m in st.markets
  {
    st.(markets := st.markets[m := st.markets[m].(markPrice := price)])
  }

  /** In a market without a mark an order is projected as if its own price were the mark. */
  lemma UnmarkedIsOrderPrice(st: RiskState, a: U64, delta: Fill)
    requires delta.market in st.markets && st.markets[delta.market].markPrice == 0 && delta.price != 0
    ensures Summary(st, a, Some(delta)) == Summary(Marked(st, delta.market, delta.price), a, Some(delta))
  {
    var xs, marked := WithDelta(Held(AccountOf(st, a)), Some(delta)), Marked(st, delta.market, delta.price).markets;
    SumSame(xs, EquityTerm(st.markets, Some(delta)), EquityTerm(marked, Some(delta)));
    SumSame(xs, InitialTerm(st.markets, Some(delta)), InitialTerm(marked, Some(delta)));
    SumSame(xs, MaintenanceTerm(st.markets, Some(delta)), MaintenanceTerm(marked, Some(delta)));
  }

  // ----- the pre-trade check -----

  /** What the projection of an order adds to equity: the new quantity's revaluation, if there was a position. */
  function Revaluation(st: RiskState, i: OrderIntent): int {
    var acc, market := AccountOf(st, i.account), MarketOf(st, i.market);
    if i.market in acc.positions then
      (if i.side == Buy then i.quantity else -i.quantity) * (market.markPrice - acc.positions[i.market].entryPrice) * market.config.contractSize
    else 0
  }

  lemma ProjectedEquityIs(st: RiskState, i: OrderIntent)
    requires i.market in st.markets && st.markets[i.market].markPrice != 0
    ensures Summary(st, i.account, Some(IntentFill(i))).equity == Summary(st, i.account, None).equity + Revaluation(st, i)
  {
    var m, acc, delta := i.market, AccountOf(st, i.account), Some(IntentFill(i));
    assert delta.value.market == m && Signed(delta.value.side, delta.value.quantity) == Signed(i.side, i.quantity);
    hide IntentFill, Summary, Held, EquityTerm;
    SummaryEquity(st, i.account, None);
    SummaryEquity(st, i.account, delta);
    AwayFromMarket(st.markets, acc, acc, m, delta);
    ProjectedTerm(st.markets, acc, m, delta.value);
    if m !in acc.positions {
      NotHeld(st.markets, acc, m);
    } else {
      HeldTerm(st.markets, acc, m);
      ShiftedTerm(acc.positions[m].quantity, Signed(i.side, i.quantity), st.markets[m].markPrice - acc.positions[m].entryPrice,
                  st.markets[m].config.contractSize);
    }
  }

  lemma NotHeld(markets: map<U16, MarketState>, acc: Account, m: U16)
    requires m !in acc.positions
    ensures At(Held(acc), EquityTerm(markets, None), m) == 0
  {
  }

  lemma ShiftedTerm(q: int, s: int, x: int, size: int)
    ensures (q + s) * x * size == q * x * size + s * x * size
  {
    Scale(q, s, x);
    Scale(q * x, s * x, size);
  }

  /** The order is reduce-only and would make the position larger. */
  predicate GrowsReduceOnly(st: RiskState, i: OrderIntent) {
    var q := PositionOf(AccountOf(st, i.account), i.market).quantity;
    i.reduceOnly && Abs(if i.side == Buy then q + i.quantity else q - i.quantity) > Abs(q)
  }

  /**
   The pre-trade check in a market with a mark: after the order's quantity has
   filled, in whatever pieces at whatever prices, the initial margin must be
   covered by the equity before it and the projected revaluation.
   */
  lemma PreTradeExact(st: RiskState, i: OrderIntent, fills: seq<Fill>)
    requires i.market in st.markets && st.markets[i.market].markPrice != 0
    requires AllFor(fills, i.account, i.market) && SumSigned(fills) == Signed(i.side, i.quantity)
    ensures var after := Summary(ApplyFills(st, fills), i.account, None);
            var equity := Summary(st, i.account, None).equity + Revaluation(st, i);
            var covered := after.initialMargin <= equity;
            var r := EvaluateOrder(st, i);
            && (r.decision == Accepted <==> !GrowsReduceOnly(st, i) && covered)
            && (r.decision == RejectedReduceOnly <==> GrowsReduceOnly(st, i))
            && (r.decision == RejectedInsufficientMargin <==> !GrowsReduceOnly(st, i) && !covered)
            && (!GrowsReduceOnly(st, i) ==>
                  r.equity == equity && r.initialMargin == after.initialMargin && r.maintenanceMargin == after.maintenanceMargin)
  {
    hide ApplyFills, Summary;
    WhatIfMarginsAreExact(st, i, fills);
    ProjectedEquityIs(st, i);
  }

  /** Each verdict has its own code, and a market that is not configured is refused before anything else is asked. */
  lemma VerdictCodes(st: RiskState, i: OrderIntent)
    ensures var r := EvaluateOrder(st, i);
            && (r.decision == RejectedUnknownMarket <==> i.market !in st.markets)
            && (r.decision == RejectedReduceOnly <==> i.market in st.markets && GrowsReduceOnly(st, i))
            && r.rejectCode == (match r.decision
                                case Accepted => 0
                                case RejectedUnknownMarket => 2001
                                case RejectedInsufficientMargin => 2002
                                case RejectedReduceOnly => 2003)
  {
    hide Summary;
  }

  /** A flat account without collateral asks for four hundred at a mark of a thousand: refused, with a requirement of twenty thousand. */
  lemma UncoveredOrderRefused() returns (st: RiskState, i: OrderIntent)
    ensures i.market in st.markets && i.account !in st.accounts && !i.reduceOnly
    ensures EvaluateOrder(st, i) == RiskResult(RejectedInsufficientMargin, 2002, 0, 20_000, 12_000)
  {
    st := RiskState(map[], map[1 := MarketState(MarketConfig(1, 500, 300), 1000)]);
    i := OrderIntent(1, 1, Buy, 400, 1000, false);
    var acc, xs := AccountOf(st, 1), WithDelta(Held(AccountOf(st, 1)), Some(IntentFill(i)));
    assert xs == map[1 := Exposure(400, 1000, false)] && xs - {1} == map[];
    SumTake(xs, EquityTerm(st.markets, Some(IntentFill(i))), 1);
    SumTake(xs, InitialTerm(st.markets, Some(IntentFill(i))), 1);
    SumTake(xs, MaintenanceTerm(st.markets, Some(IntentFill(i))), 1);
    assert ApplyBasisPoints(400_000, 500) == 20_000 && ApplyBasisPoints(400_000, 300) == 12_000;
  }

  // ----- liquidation -----

  /** When an account is liquidated in full, when it is healthy, and the figures that go with it. */
  lemma LiquidationExact(st: RiskState, a: U64)
    requires SoundMarkets(st, a)
    ensures var s := Summary(st, a, None);
            var now := Classify(s);
            && (now.status == NeedsFull <==> s.maintenanceMargin != 0 && s.equity < s.maintenanceMargin)
            && (now.status == Healthy <==> s.maintenanceMargin == 0 || s.equity >= s.initialMargin)
            && now.deficit == (match now.status
                               case Healthy => 0
                               case NeedsPartial => s.initialMargin - s.equity
                               case NeedsFull => s.maintenanceMargin - s.equity)
            && now.equity == s.equity && now.initialMargin == s.initialMargin && now.maintenanceMargin == s.maintenanceMargin
  {
    MaintenanceWithinInitial(st, a);
  }

  /** Exactly which credits take an account out of full liquidation, and which make it healthy. */
  lemma LeastCredits(st: RiskState, a: U64, credit: int)
    requires SoundMarkets(st, a) && Summary(st, a, None).maintenanceMargin != 0
    ensures var s, status := Summary(st, a, None), Classify(Summary(Credit(st, a, credit), a, None)).status;
            && (status != NeedsFull <==> credit >= s.maintenanceMargin - s.equity)
            && (status == Healthy <==> credit >= s.initialMargin - s.equity)
  {
    MaintenanceWithinInitial(st, a);
    CreditRaisesEquity(st, a, credit);
  }
}
