/** Margin requirements, the pre-trade check, and the liquidation classification. */
module Margin {
  import opened Common
  import opened MapSums
  import opened Risk

  datatype Exposure = Exposure(quantity: int, entryPrice: int, existed: bool)

  datatype MarginSummary = MarginSummary(equity: int, initialMargin: int, maintenanceMargin: int)

  datatype OrderIntent = OrderIntent(account: U64, market: U16, side: Side, quantity: int, limitPrice: int, reduceOnly: bool)

  datatype Decision = Accepted | RejectedInsufficientMargin | RejectedReduceOnly | RejectedUnknownMarket

  datatype RiskResult = RiskResult(decision: Decision, rejectCode: int, equity: int, initialMargin: int, maintenanceMargin: int)

  function ApplyBasisPoints(notional: int, bp: int): int {
    TruncDiv(notional * bp + (BASIS_POINT_DENOMINATOR - 1), BASIS_POINT_DENOMINATOR)
  }

  function Held(acc: Account): map<U16, Exposure> {
    map m | m in acc.positions :: Exposure(acc.positions[m].quantity, acc.positions[m].entryPrice, true)
  }

  function WithDelta(held: map<U16, Exposure>, delta: Option<Fill>): map<U16, Exposure> {
    match delta
    case None => held
    case Some(d) =>
      var s := Signed(d.side, d.quantity);
      if d.market in held then held[d.market := held[d.market].(quantity := held[d.market].quantity + s)]
      else held[d.market := Exposure(s, d.price, false)]
  }

  /** The price an exposure is valued at: the mark, or a stand-in while there is none. */
  function ValuationPrice(mark: int, m: U16, x: Exposure, delta: Option<Fill>): int {
    if mark != 0 then mark
    else if delta.Some? && delta.value.market == m && delta.value.price != 0 then delta.value.price
    else x.entryPrice
  }

  function Notional(markets: map<U16, MarketState>, delta: Option<Fill>, m: U16, x: Exposure): int
    requires m in markets
  {
    Abs(x.quantity) * ValuationPrice(markets[m].markPrice, m, x, delta) * markets[m].config.contractSize
  }

  predicate Counts(markets: map<U16, MarketState>, m: U16, x: Exposure) {
    x.quantity != 0 && m in markets
  }

  function InitialTerm(markets: map<U16, MarketState>, delta: Option<Fill>): (U16, Exposure) -> int {
    (m: U16, x: Exposure) =>
      if Counts(markets, m, x) then ApplyBasisPoints(Notional(markets, delta, m, x), markets[m].config.initialMarginBp) else 0
  }

  function MaintenanceTerm(markets: map<U16, MarketState>, delta: Option<Fill>): (U16, Exposure) -> int {
    (m: U16, x: Exposure) =>
      if Counts(markets, m, x) then ApplyBasisPoints(Notional(markets, delta, m, x), markets[m].config.maintenanceMarginBp) else 0
  }

  function EquityTerm(markets: map<U16, MarketState>, delta: Option<Fill>): (U16, Exposure) -> int {
    (m: U16, x: Exposure) =>
      if Counts(markets, m, x) && x.existed then
        x.quantity * (ValuationPrice(markets[m].markPrice, m, x, delta) - x.entryPrice) * markets[m].config.contractSize
      else 0
  }

  ghost function Summary(st: RiskState, a: U64, delta: Option<Fill>): MarginSummary {
    var acc := AccountOf(st, a);
    var xs := WithDelta(Held(acc), delta);
    MarginSummary(acc.collateral + acc.realizedPnl + Sum(xs, EquityTerm(st.markets, delta)),
                  Sum(xs, InitialTerm(st.markets, delta)),
                  Sum(xs, MaintenanceTerm(st.markets, delta)))
  }

  function IntentFill(i: OrderIntent): Fill {
    Fill(i.account, i.market, i.side, i.quantity, i.limitPrice)
  }

  ghost function EvaluateOrder(st: RiskState, i: OrderIntent): RiskResult {
    if i.market !in st.markets then RiskResult(RejectedUnknownMarket, REJECT_UNKNOWN_MARKET, 0, 0, 0)
    else
      var existing := PositionOf(AccountOf(st, i.account), i.market).quantity;
      if i.reduceOnly && Abs(existing + Signed(i.side, i.quantity)) > Abs(existing) then
        RiskResult(RejectedReduceOnly, REJECT_REDUCE_ONLY, 0, 0, 0)
      else
        var s := Summary(st, i.account, Some(IntentFill(i)));
        if s.initialMargin > s.equity then
          RiskResult(RejectedInsufficientMargin, REJECT_INSUFFICIENT_MARGIN, s.equity, s.initialMargin, s.maintenanceMargin)
        else RiskResult(Accepted, 0, s.equity, s.initialMargin, s.maintenanceMargin)
  }

  // ----- what-if margins are the margins after the fills -----

  function SumSigned(fills: seq<Fill>): int {
    if fills == [] then 0 else SumSigned(fills[..|fills| - 1]) + Signed(fills[|fills| - 1].side, fills[|fills| - 1].quantity)
  }

  ghost predicate AllFor(fills: seq<Fill>, a: U64, m: U16) {
    forall i :: 0 <= i < |fills| ==> fills[i].account == a && fills[i].market == m
  }

  /** Fills of one account in one market move that position by their sum and touch no other position or market. */
  lemma {:induction false} FillsMoveOnePosition(st: RiskState, fills: seq<Fill>, a: U64, m: U16)
    requires AllFor(fills, a, m) && m in st.markets
    ensures var st' := ApplyFills(st, fills);
            && st'.markets == st.markets
            && PositionOf(AccountOf(st', a), m).quantity == PositionOf(AccountOf(st, a), m).quantity + SumSigned(fills)
            && AccountOf(st', a).positions - {m} == AccountOf(st, a).positions - {m}
  {
    if fills != [] {
      var before, f := fills[..|fills| - 1], fills[|fills| - 1];
      FillsMoveOnePosition(st, before, a, m);
      var mid := ApplyFills(st, before);
      FillLaw(PositionOf(AccountOf(mid, a), m), Signed(f.side, f.quantity), f.price);
    }
  }

  /** Away from a market, exposures are decided by the positions away from it. */
  lemma HeldAway(acc: Account, acc': Account, m: U16, delta: Option<Fill>)
    requires acc.positions - {m} == acc'.positions - {m}
    requires delta.Some? ==> delta.value.market == m
    ensures Held(acc') - {m} == WithDelta(Held(acc), delta) - {m}
  {
    var x, y := Held(acc') - {m}, WithDelta(Held(acc), delta) - {m};
    assert x.Keys == (acc'.positions - {m}).Keys;
    assert y.Keys == (acc.positions - {m}).Keys;
    forall k | k in x
      ensures x[k] == y[k]
    {
      assert (acc'.positions - {m})[k] == (acc.positions - {m})[k];
    }
  }

  /**
   While a market has a mark, the margins projected for an order are the margins
   after the order's quantity has been filled, in any pieces, at any prices.
   */
  lemma WhatIfMarginsAreExact(st: RiskState, i: OrderIntent, fills: seq<Fill>)
    requires i.market in st.markets && st.markets[i.market].markPrice != 0
    requires AllFor(fills, i.account, i.market) && SumSigned(fills) == Signed(i.side, i.quantity)
    ensures var projected := Summary(st, i.account, Some(IntentFill(i)));
            var actual := Summary(ApplyFills(st, fills), i.account, None);
            projected.initialMargin == actual.initialMargin && projected.maintenanceMargin == actual.maintenanceMargin
  {
    var m, delta := i.market, Some(IntentFill(i));
    var st' := ApplyFills(st, fills);
    FillsMoveOnePosition(st, fills, i.account, m);
    var acc, acc' := AccountOf(st, i.account), AccountOf(st', i.account);
    var xs, ys := WithDelta(Held(acc), delta), Held(acc');
    HeldAway(acc, acc', m, delta);
    assert xs[m].quantity == PositionOf(acc', m).quantity;
    assert m in ys ==> ys[m].quantity == PositionOf(acc', m).quantity;
    SumSplit(xs, InitialTerm(st.markets, delta), ys, InitialTerm(st.markets, None), m);
    SumSplit(xs, MaintenanceTerm(st.markets, delta), ys, MaintenanceTerm(st.markets, None), m);
  }

  // ----- reported and projected equity -----

  function ConfiguredSizes(st: RiskState): U16 -> int {
    (m: U16) => MarketOf(st, m).config.contractSize
  }

  function CurrentMarks(st: RiskState): U16 -> int {
    (m: U16) => MarketOf(st, m).markPrice
  }

  /** While all its markets have marks, the equity that a summary reports is the account's share of total equity. */
  lemma ReportedEquity(st: RiskState, a: U64)
    requires forall m :: m in AccountOf(st, a).positions ==> m in st.markets && st.markets[m].markPrice != 0
    ensures Summary(st, a, None).equity == EquityOf(ConfiguredSizes(st), CurrentMarks(st))(a, AccountOf(st, a))
  {
    var acc := AccountOf(st, a);
    SumMapped(Held(acc), EquityTerm(st.markets, None), acc.positions, UnrealizedAt(ConfiguredSizes(st), CurrentMarks(st)));
  }

  /**
   How far the equity projected for an order is from the equity after the order
   has filled at a price, per unit of contract size.  The projection keeps the
   old entry price and leaves out what a new position earns.
   */
  function ProjectionError(acc: Account, m: U16, s: int, price: int, mark: int): int {
    var p := PositionOf(acc, m);
    if m in acc.positions then Realized(p, s, price) - s * (price - p.entryPrice) + Rounding(p, s, price)
    else s * (mark - price)
  }

  /** The projection is off by exactly that much, so it is right exactly when that or the contract size is zero. */
  lemma ProjectedEquityExact(st: RiskState, i: OrderIntent, price: int)
    requires i.market in st.markets && st.markets[i.market].markPrice != 0
    ensures var fill := IntentFill(i).(price := price);
            var size := st.markets[i.market].config.contractSize;
            var error := ProjectionError(AccountOf(st, i.account), i.market, Signed(i.side, i.quantity), price, st.markets[i.market].markPrice);
            var projected, actual := Summary(st, i.account, Some(IntentFill(i))), Summary(ApplyFill(st, fill), i.account, None);
            && actual.equity == projected.equity + error * size
            && (actual.equity == projected.equity <==> error == 0 || size == 0)
  {
    var m, s, state := i.market, Signed(i.side, i.quantity), st.markets[i.market];
    var acc, p := AccountOf(st, i.account), PositionOf(AccountOf(st, i.account), i.market);
    EquityShift(st, i, price);
    FillLaw(p, s, price);
    if m !in acc.positions {
      OpeningAtPrice(s, price);
    }
    hide Moved, Realized, Rounding, Summary, ApplyFill;
    ErrorTerm(state.config.contractSize, state.markPrice, p.quantity, p.entryPrice, s, price, Moved(p, s, price).entryPrice,
              Realized(p, s, price), Rounding(p, s, price), m in acc.positions);
    ZeroProduct(ProjectionError(acc, m, s, price, state.markPrice), state.config.contractSize);
  }

  /** Only the filled market's term and the double booking of what is realized tell the two equities apart. */
  lemma EquityShift(st: RiskState, i: OrderIntent, price: int)
    requires i.market in st.markets && st.markets[i.market].markPrice != 0
    ensures var m, s := i.market, Signed(i.side, i.quantity);
            var size, mark := st.markets[m].config.contractSize, st.markets[m].markPrice;
            var acc := AccountOf(st, i.account);
            var p := PositionOf(acc, m);
            Summary(ApplyFill(st, IntentFill(i).(price := price)), i.account, None).equity
            == Summary(st, i.account, Some(IntentFill(i))).equity
               + 2 * (Realized(p, s, price) * size) + (p.quantity + s) * (mark - Moved(p, s, price).entryPrice) * size
               - if m in acc.positions then (p.quantity + s) * (mark - p.entryPrice) * size else 0
  {
    var m, s, fill, delta := i.market, Signed(i.side, i.quantity), IntentFill(i).(price := price), Some(IntentFill(i));
    var st' := ApplyFill(st, fill);
    var acc, acc', p := AccountOf(st, i.account), AccountOf(st', i.account), PositionOf(AccountOf(st, i.account), i.market);
    FillLaw(p, s, price);
    assert acc'.positions == acc.positions[m := Moved(p, s, price)] && st'.markets == st.markets;
    assert acc'.collateral + acc'.realizedPnl
           == acc.collateral + acc.realizedPnl + 2 * (Realized(p, s, price) * st.markets[m].config.contractSize);
    hide Moved, Realized, Rounding, ApplyFill, Summary, IntentFill;
    SummaryEquity(st, i.account, delta);
    SummaryEquity(st', i.account, None);
    AwayFromMarket(st.markets, acc, acc', m, delta);
    HeldTerm(st.markets, acc', m);
    ProjectedTerm(st.markets, acc, m, delta.value);
  }

  lemma AwayFromMarket(markets: map<U16, MarketState>, acc: Account, acc': Account, m: U16, delta: Option<Fill>)
    requires acc.positions - {m} == acc'.positions - {m} && delta.Some? && delta.value.market == m
    ensures var xs, ys := WithDelta(Held(acc), delta), Held(acc');
            Sum(ys, EquityTerm(markets, None)) - At(ys, EquityTerm(markets, None), m)
            == Sum(xs, EquityTerm(markets, delta)) - At(xs, EquityTerm(markets, delta), m)
  {
    var xs, ys := WithDelta(Held(acc), delta), Held(acc');
    HeldAway(acc, acc', m, delta);
    SumSplit(xs, EquityTerm(markets, delta), ys, EquityTerm(markets, None), m);
  }

  lemma HeldTerm(markets: map<U16, MarketState>, acc: Account, m: U16)
    requires m in markets && markets[m].markPrice != 0 && m in acc.positions
    ensures At(Held(acc), EquityTerm(markets, None), m)
            == acc.positions[m].quantity * (markets[m].markPrice - acc.positions[m].entryPrice) * markets[m].config.contractSize
  {
  }

  lemma ProjectedTerm(markets: map<U16, MarketState>, acc: Account, m: U16, delta: Fill)
    requires m in markets && markets[m].markPrice != 0 && delta.market == m
    ensures var p := PositionOf(acc, m);
            At(WithDelta(Held(acc), Some(delta)), EquityTerm(markets, Some(delta)), m)
            == if m in acc.positions then
                 (p.quantity + Signed(delta.side, delta.quantity)) * (markets[m].markPrice - p.entryPrice) * markets[m].config.contractSize
               else 0
  {
  }

  lemma SummaryEquity(st: RiskState, a: U64, delta: Option<Fill>)
    ensures var acc := AccountOf(st, a);
            Summary(st, a, delta).equity
            == acc.collateral + acc.realizedPnl + Sum(WithDelta(Held(acc), delta), EquityTerm(st.markets, delta))
  {
  }

  lemma ErrorTerm(size: int, mark: int, q: int, e: int, s: int, price: int, e': int, realized: int, rounding: int, existed: bool)
    requires realized - (q + s) * e' == -(q * e) - s * price + rounding
    requires !existed ==> q == 0 && e == 0 && realized == 0 && rounding == 0
    ensures var error := if existed then realized - s * (price - e) + rounding else s * (mark - price);
            2 * (realized * size) + (q + s) * (mark - e') * size - (if existed then (q + s) * (mark - e) * size else 0) == error * size
  {
    var u, v := (q + s) * (mark - e'), if existed then (q + s) * (mark - e) else 0;
    var error := if existed then realized - s * (price - e) + rounding else s * (mark - price);
    Difference(q + s, mark, e');
    Difference(q + s, mark, e);
    Difference(s, price, e);
    Difference(s, mark, price);
    Scale(q, s, e);
    Scale(q, s, mark);
    Collect(size, realized, u, v, error);
  }

  lemma Difference(t: int, a: int, b: int)
    ensures t * (a - b) == t * a - t * b
  {
  }

  lemma Collect(size: int, realized: int, u: int, v: int, error: int)
    requires 2 * realized + u - v == error
    ensures 2 * (realized * size) + u * size - v * size == error * size
  {
    Scale(2 * realized, u - v, size);
    Scale(u, -v, size);
  }

  /** Closing a long at a profit: the order is projected to take equity from ten to nothing, and it leaves twenty. */
  lemma ProjectionFallsShort() returns (st: RiskState, i: OrderIntent)
    ensures i.market in st.markets && st.markets[i.market].markPrice != 0 && i.limitPrice == st.markets[i.market].markPrice
    ensures Summary(st, i.account, None).equity == 10 && Summary(st, i.account, Some(IntentFill(i))).equity == 0
    ensures Summary(ApplyFill(st, IntentFill(i)), i.account, None).equity == 20
  {
    var long := Account(0, 0, map[1 := Position(1, 10)]);
    st := RiskState(map[1 := long], map[1 := MarketState(MarketConfig(1, 0, 0), 20)]);
    i := OrderIntent(1, 1, Sell, 1, 20, false);
    var xs := WithDelta(Held(long), Some(IntentFill(i)));
    assert Held(long) - {1} == map[] && xs - {1} == map[];
    SumTake(Held(long), EquityTerm(st.markets, None), 1);
    SumTake(xs, EquityTerm(st.markets, Some(IntentFill(i))), 1);
    HeldTerm(st.markets, long, 1);
    ProjectedTerm(st.markets, long, 1, IntentFill(i));
    SummaryEquity(st, 1, None);
    SummaryEquity(st, 1, Some(IntentFill(i)));
    assert AccountOf(st, 1) == long && ProjectionError(long, 1, -1, 20, 20) == 20;
    hide Summary, ApplyFill, ProjectionError;
    ProjectedEquityExact(st, i, 20);
  }

  // ----- liquidation -----

  datatype Status = Healthy | NeedsPartial | NeedsFull

  datatype Liquidation = Liquidation(status: Status, equity: int, initialMargin: int, maintenanceMargin: int, deficit: int)

  function Classify(s: MarginSummary): Liquidation {
    if s.maintenanceMargin == 0 then Liquidation(Healthy, s.equity, s.initialMargin, s.maintenanceMargin, 0)
    else if s.equity < s.maintenanceMargin then
      Liquidation(NeedsFull, s.equity, s.initialMargin, s.maintenanceMargin, s.maintenanceMargin - s.equity)
    else if s.equity < s.initialMargin then
      Liquidation(NeedsPartial, s.equity, s.initialMargin, s.maintenanceMargin, s.initialMargin - s.equity)
    else Liquidation(Healthy, s.equity, s.initialMargin, s.maintenanceMargin, 0)
  }

  function Severity(s: Status): nat {
    match s case Healthy => 0 case NeedsPartial => 1 case NeedsFull => 2
  }

  function Credit(st: RiskState, a: U64, amount: int): RiskState {
    var acc := AccountOf(st, a);
    st.(accounts := st.accounts[a := acc.(collateral := acc.collateral + amount)])
  }

  /** Crediting collateral raises equity by exactly that much and leaves the margins alone. */
  lemma CreditRaisesEquity(st: RiskState, a: U64, amount: int)
    ensures var s := Summary(st, a, None);
            Summary(Credit(st, a, amount), a, None) == s.(equity := s.equity + amount)
  {
  }

  /** The markets' configuration as the configuration loader admits it, and prices not below zero. */
  ghost predicate SoundMarkets(st: RiskState, a: U64) {
    && (forall m :: m in st.markets ==>
          && st.markets[m].config.contractSize >= 0 && st.markets[m].markPrice >= 0
          && 0 <= st.markets[m].config.maintenanceMarginBp <= st.markets[m].config.initialMarginBp)
    && (forall m :: m in AccountOf(st, a).positions ==> AccountOf(st, a).positions[m].entryPrice >= 0)
  }

  lemma BasisPointsMonotone(notional: int, low: int, high: int)
    requires notional >= 0 && 0 <= low <= high
    ensures 0 <= ApplyBasisPoints(notional, low) <= ApplyBasisPoints(notional, high)
  {
    var x, y := notional * low, notional * high;
    assert 0 <= x <= y;
    assert (x + 9999) / 10000 <= (y + 9999) / 10000;
  }

  lemma NotionalNonNegative(q: int, price: int, size: int)
    requires price >= 0 && size >= 0
    ensures Abs(q) * price * size >= 0
  {
    assert Abs(q) * price >= 0;
  }

  /** Summed and rounded up, maintenance never exceeds initial margin. */
  lemma MaintenanceWithinInitial(st: RiskState, a: U64)
    requires SoundMarkets(st, a)
    ensures Summary(st, a, None).maintenanceMargin <= Summary(st, a, None).initialMargin
  {
    var xs := Held(AccountOf(st, a));
    var f, g := MaintenanceTerm(st.markets, None), InitialTerm(st.markets, None);
    forall m | m in xs
      ensures f(m, xs[m]) <= g(m, xs[m])
    {
      if Counts(st.markets, m, xs[m]) {
        var c := st.markets[m].config;
        NotionalNonNegative(xs[m].quantity, ValuationPrice(st.markets[m].markPrice, m, xs[m], None), c.contractSize);
        BasisPointsMonotone(Notional(st.markets, None, m, xs[m]), c.maintenanceMarginBp, c.initialMarginBp);
      }
    }
    SumOrder(xs, f, g);
  }

  /** The status only worsens as equity falls. */
  lemma StatusMonotone(low: MarginSummary, high: MarginSummary)
    requires low.equity <= high.equity
    requires low.initialMargin == high.initialMargin && low.maintenanceMargin == high.maintenanceMargin
    ensures Severity(Classify(high).status) <= Severity(Classify(low).status)
  {
  }

  /** The deficit is exact: crediting it leaves the status for a better one, and one unit less does not. */
  lemma DeficitIsExact(st: RiskState, a: U64)
    requires SoundMarkets(st, a)
    ensures var now := Classify(Summary(st, a, None));
            now.status != Healthy ==>
              && now.deficit > 0
              && Severity(Classify(Summary(Credit(st, a, now.deficit), a, None)).status) < Severity(now.status)
              && Classify(Summary(Credit(st, a, now.deficit - 1), a, None)).status == now.status
  {
    var now := Classify(Summary(st, a, None));
    MaintenanceWithinInitial(st, a);
    CreditRaisesEquity(st, a, now.deficit);
    CreditRaisesEquity(st, a, now.deficit - 1);
  }
}
