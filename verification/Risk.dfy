/** Positions, profit and loss, and margin: the value-level account of the risk engine. */
module Risk {
  import opened Common
  import opened MapSums

  const BASIS_POINT_DENOMINATOR := 10_000
  const REJECT_UNKNOWN_MARKET := 2001
  const REJECT_INSUFFICIENT_MARGIN := 2002
  const REJECT_REDUCE_ONLY := 2003

  datatype Position = Position(quantity: int, entryPrice: int)

  datatype Account = Account(collateral: int, realizedPnl: int, positions: map<U16, Position>)

  datatype MarketConfig = MarketConfig(contractSize: int, initialMarginBp: int, maintenanceMarginBp: int)

  datatype MarketState = MarketState(config: MarketConfig, markPrice: int)

  datatype RiskState = RiskState(accounts: map<U64, Account>, markets: map<U16, MarketState>)

  datatype Fill = Fill(account: U64, market: U16, side: Side, quantity: int, price: int)

  const FLAT := Position(0, 0)
  const NEW_ACCOUNT := Account(0, 0, map[])
  const NEW_MARKET := MarketState(MarketConfig(1, 0, 0), 0)

  function AccountOf(st: RiskState, a: U64): Account {
    if a in st.accounts then st.accounts[a] else NEW_ACCOUNT
  }

  function MarketOf(st: RiskState, m: U16): MarketState {
    if m in st.markets then st.markets[m] else NEW_MARKET
  }

  function PositionOf(acc: Account, m: U16): Position {
    if m in acc.positions then acc.positions[m] else FLAT
  }

  function Signed(side: Side, quantity: int): int {
    if side.Buy? then quantity else -quantity
  }

  // ----- one position -----

  /** The fill opens the position or adds to it. */
  predicate Extends(q: int, s: int) {
    q == 0 || (q > 0 && s > 0) || (q < 0 && s < 0)
  }

  function WeightedNotional(p: Position, s: int, price: int): int {
    p.entryPrice * Abs(p.quantity) + price * Abs(s)
  }

  function Moved(p: Position, s: int, price: int): Position {
    var q := p.quantity + s;
    if Extends(p.quantity, s) then
      Position(q, if q != 0 then TruncDiv(WeightedNotional(p, s, price), Abs(p.quantity) + Abs(s)) else 0)
    else if q == 0 then Position(0, 0)
    else if (p.quantity > 0 && q < 0) || (p.quantity < 0 && q > 0) then Position(q, price)
    else Position(q, p.entryPrice)
  }

  /** Profit per unit of contract size that the fill realizes. */
  function Realized(p: Position, s: int, price: int): int {
    if Extends(p.quantity, s) then 0
    else Min(Abs(p.quantity), Abs(s)) * (if p.quantity > 0 then price - p.entryPrice else p.entryPrice - price)
  }

  /**
   What the truncated average entry price adds to the books: nothing unless the
   fill extends the position, and then the division's remainder, credited to
   longs and charged to shorts.
   */
  function Rounding(p: Position, s: int, price: int): int {
    var q := p.quantity + s;
    if Extends(p.quantity, s) && q != 0 then
      var remainder := WeightedNotional(p, s, price) - Moved(p, s, price).entryPrice * Abs(q);
      if q > 0 then remainder else -remainder
    else 0
  }

  lemma ExtendingSize(q: int, s: int)
    requires Extends(q, s)
    ensures Abs(q) + Abs(s) == Abs(q + s)
  {
  }

  /** The exact law of one fill: realized profit minus the change of booked cost is the cash paid, up to rounding. */
  lemma FillLaw(p: Position, s: int, price: int)
    ensures var p' := Moved(p, s, price);
            && p'.quantity == p.quantity + s
            && Realized(p, s, price) - p'.quantity * p'.entryPrice
               == -(p.quantity * p.entryPrice) - s * price + Rounding(p, s, price)
  {
    var p' := Moved(p, s, price);
    var q, e := p.quantity, p.entryPrice;
    if Extends(q, s) {
      ExtendingSize(q, s);
      if q + s > 0 {
        assert Abs(q + s) == q + s && Abs(q) == q && Abs(s) == s;
      } else if q + s < 0 {
        assert Abs(q + s) == -(q + s) && Abs(q) == -q && Abs(s) == -s;
        assert e * Abs(q) == -(e * q) && price * Abs(s) == -(price * s);
        assert p'.entryPrice * Abs(q + s) == -(p'.entryPrice * (q + s));
      }
    } else {
      ReducingLaw(p, s, price);
    }
  }

  /** Reducing, closing and flipping fills are exact. */
  lemma ReducingLaw(p: Position, s: int, price: int)
    requires !Extends(p.quantity, s)
    ensures var p' := Moved(p, s, price);
            Realized(p, s, price) - p'.quantity * p'.entryPrice == -(p.quantity * p.entryPrice) - s * price
  {
    var q, e := p.quantity, p.entryPrice;
    if Abs(s) <= Abs(q) {
      assert Min(Abs(q), Abs(s)) == if q > 0 then -s else s;
      assert Realized(p, s, price) == -s * (price - e);
      if q + s == 0 {
        assert s == -q;
        assert -s * (price - e) == -(q * e) - s * price;
      } else {
        assert Moved(p, s, price).entryPrice == e;
        assert (q + s) * e == q * e + s * e;
      }
    } else {
      assert Realized(p, s, price) == q * (price - e);
      assert (q + s) * price == q * price + s * price;
    }
  }

  lemma WeightedNotionalNonNegative(p: Position, s: int, price: int)
    requires p.entryPrice >= 0 && price >= 0
    ensures WeightedNotional(p, s, price) >= 0
  {
  }

  lemma QuotientNonNegative(n: int, size: int)
    requires n >= 0 && size > 0
    ensures TruncDiv(n, size) >= 0
  {
  }

  /** With prices at or above zero the rounding is a remainder below the new size, up for longs and down for shorts. */
  lemma RoundingBound(p: Position, s: int, price: int)
    requires p.entryPrice >= 0 && price >= 0
    ensures Moved(p, s, price).entryPrice >= 0
    ensures !Extends(p.quantity, s) ==> Rounding(p, s, price) == 0
    ensures p.quantity + s > 0 ==> 0 <= Rounding(p, s, price) <= Abs(p.quantity + s) - 1
    ensures p.quantity + s < 0 ==> -(Abs(p.quantity + s) - 1) <= Rounding(p, s, price) <= 0
    ensures p.quantity + s == 0 ==> Rounding(p, s, price) == 0
  {
    if Extends(p.quantity, s) && p.quantity + s != 0 {
      ExtendingSize(p.quantity, s);
      WeightedNotionalNonNegative(p, s, price);
      hide WeightedNotional;
      var n, size := WeightedNotional(p, s, price), Abs(p.quantity + s);
      assert Moved(p, s, price).entryPrice == TruncDiv(n, size);
      QuotientNonNegative(n, size);
    }
  }

  // ----- a trading history of one account in one market -----

  datatype Trade = Trade(signed: int, price: int)

  function Trades(trades: seq<Trade>): Position {
    if trades == [] then FLAT
    else var t := trades[|trades| - 1]; Moved(Trades(trades[..|trades| - 1]), t.signed, t.price)
  }

  function TotalRealized(trades: seq<Trade>): int {
    if trades == [] then 0
    else var t := trades[|trades| - 1]; TotalRealized(trades[..|trades| - 1]) + Realized(Trades(trades[..|trades| - 1]), t.signed, t.price)
  }

  function Cash(trades: seq<Trade>): int {
    if trades == [] then 0
    else var t := trades[|trades| - 1]; Cash(trades[..|trades| - 1]) - t.signed * t.price
  }

  function Drift(trades: seq<Trade>): int {
    if trades == [] then 0
    else var t := trades[|trades| - 1]; Drift(trades[..|trades| - 1]) + Rounding(Trades(trades[..|trades| - 1]), t.signed, t.price)
  }

  /** How far rounding can have moved the books: the sizes reached by extending fills, less one each. */
  function DriftBound(trades: seq<Trade>): nat {
    if trades == [] then 0
    else
      var before, t := trades[..|trades| - 1], trades[|trades| - 1];
      var q := Trades(before).quantity;
      DriftBound(before) + if Extends(q, t.signed) && q + t.signed != 0 then Abs(q + t.signed) - 1 else 0
  }

  /** Realized plus unrealized profit at any mark is the exact cash-flow value plus the accumulated rounding. */
  lemma {:induction false} ProfitIsCashFlowPlusDrift(trades: seq<Trade>, mark: int, size: int)
    ensures var p := Trades(trades);
            size * TotalRealized(trades) + p.quantity * (mark - p.entryPrice) * size
            == size * (Cash(trades) + p.quantity * mark) + size * Drift(trades)
  {
    BooksBalance(trades);
    var p := Trades(trades);
    Scaled(size, TotalRealized(trades), p.quantity, mark, p.entryPrice, Cash(trades), Drift(trades));
  }

  lemma Scaled(size: int, r: int, q: int, mark: int, e: int, c: int, d: int)
    requires r - q * e == c + d
    ensures size * r + q * (mark - e) * size == size * (c + q * mark) + size * d
  {
    var v, w := q * mark, q * e;
    assert q * (mark - e) == v - w;
    assert (v - w) * size == size * v - size * w;
    assert size * (c + v) == size * c + size * v;
    assert size * r == size * (c + d + w) == size * c + size * d + size * w;
  }

  lemma {:induction false} BooksBalance(trades: seq<Trade>)
    ensures var p := Trades(trades);
            TotalRealized(trades) - p.quantity * p.entryPrice == Cash(trades) + Drift(trades)
  {
    if trades != [] {
      var before, t := trades[..|trades| - 1], trades[|trades| - 1];
      BooksBalance(before);
      FillLaw(Trades(before), t.signed, t.price);
    }
  }

  lemma {:induction false} DriftIsBounded(trades: seq<Trade>)
    requires forall i :: 0 <= i < |trades| ==> trades[i].price >= 0
    ensures Trades(trades).entryPrice >= 0
    ensures Abs(Drift(trades)) <= DriftBound(trades)
  {
    if trades != [] {
      var before, t := trades[..|trades| - 1], trades[|trades| - 1];
      DriftIsBounded(before);
      RoundingBound(Trades(before), t.signed, t.price);
    }
  }

  // ----- the whole book of accounts -----

  function ApplyFill(st: RiskState, fill: Fill): RiskState {
    var market := MarketOf(st, fill.market);
    var acc := AccountOf(st, fill.account);
    var p := PositionOf(acc, fill.market);
    var s := Signed(fill.side, fill.quantity);
    var realized := Realized(p, s, fill.price) * market.config.contractSize;
    RiskState(
      st.accounts[fill.account := Account(acc.collateral + realized, acc.realizedPnl + realized,
                                          acc.positions[fill.market := Moved(p, s, fill.price)])],
      st.markets[fill.market := market])
  }

  function ApplyFills(st: RiskState, fills: seq<Fill>): RiskState {
    if fills == [] then st else ApplyFill(ApplyFills(st, fills[..|fills| - 1]), fills[|fills| - 1])
  }

  function QuantityIn(m: U16): (U64, Account) -> int {
    (a: U64, acc: Account) => PositionOf(acc, m).quantity
  }

  /** The sum of all accounts' positions in a market. */
  ghost function NetPosition(st: RiskState, m: U16): int {
    Sum(st.accounts, QuantityIn(m))
  }

  lemma {:induction false} FlatNet(accounts: map<U64, Account>, m: U16)
    requires forall a :: a in accounts ==> accounts[a].positions == map[]
    ensures Sum(accounts, QuantityIn(m)) == 0
    decreases |accounts|
  {
    if accounts != map[] {
      var a :| a in accounts;
      SumTake(accounts, QuantityIn(m), a);
      FlatNet(accounts - {a}, m);
    }
  }

  lemma FillMovesNet(st: RiskState, fill: Fill, m: U16)
    ensures NetPosition(ApplyFill(st, fill), m)
            == NetPosition(st, m) + if m == fill.market then Signed(fill.side, fill.quantity) else 0
  {
    var st' := ApplyFill(st, fill);
    FillLaw(PositionOf(AccountOf(st, fill.account), fill.market), Signed(fill.side, fill.quantity), fill.price);
    SumPut(st.accounts, QuantityIn(m), fill.account, st'.accounts[fill.account]);
  }

  /** Unrealized profit of one position at given marks and contract sizes. */
  function UnrealizedAt(sizes: U16 -> int, marks: U16 -> int): (U16, Position) -> int {
    (m: U16, p: Position) => Unrealized(p, sizes(m), marks(m))
  }

  function Unrealized(p: Position, size: int, mark: int): int {
    p.quantity * (mark - p.entryPrice) * size
  }

  ghost function ProfitOf(sizes: U16 -> int, marks: U16 -> int): (U64, Account) -> int {
    (a: U64, acc: Account) => acc.realizedPnl + Sum(acc.positions, UnrealizedAt(sizes, marks))
  }

  /** Realized plus unrealized profit over all accounts. */
  ghost function TotalProfit(st: RiskState, sizes: U16 -> int, marks: U16 -> int): int {
    Sum(st.accounts, ProfitOf(sizes, marks))
  }

  /** The rounding that one fill adds, per unit of contract size. */
  function FillRounding(st: RiskState, fill: Fill): int {
    Rounding(PositionOf(AccountOf(st, fill.account), fill.market), Signed(fill.side, fill.quantity), fill.price)
  }

  /** The most that one fill can round: one less than the size to which it extends the position. */
  function FillRoundingBound(st: RiskState, fill: Fill): nat {
    var q, s := PositionOf(AccountOf(st, fill.account), fill.market).quantity, Signed(fill.side, fill.quantity);
    if Extends(q, s) && q + s != 0 then Abs(q + s) - 1 else 0
  }

  ghost predicate EntriesNonNegative(st: RiskState) {
    forall a, m :: a in st.accounts && m in st.accounts[a].positions ==> st.accounts[a].positions[m].entryPrice >= 0
  }

  lemma FillRoundingBounded(st: RiskState, fill: Fill)
    requires EntriesNonNegative(st) && fill.price >= 0
    ensures Abs(FillRounding(st, fill)) <= FillRoundingBound(st, fill)
    ensures EntriesNonNegative(ApplyFill(st, fill))
  {
    RoundingBound(PositionOf(AccountOf(st, fill.account), fill.market), Signed(fill.side, fill.quantity), fill.price);
    hide Moved, Realized, Rounding;
  }

  /** The account's realized plus unrealized profit. */
  ghost function ProfitIn(st: RiskState, a: U64, sizes: U16 -> int, marks: U16 -> int): int {
    ProfitOf(sizes, marks)(a, AccountOf(st, a))
  }

  /** A fill changes its account's profit by its distance from the mark, and by its rounding. */
  lemma FillMovesAccountProfit(st: RiskState, fill: Fill, sizes: U16 -> int, marks: U16 -> int)
    requires sizes(fill.market) == MarketOf(st, fill.market).config.contractSize
    ensures ProfitIn(ApplyFill(st, fill), fill.account, sizes, marks)
            == ProfitIn(st, fill.account, sizes, marks)
               + (Signed(fill.side, fill.quantity) * (marks(fill.market) - fill.price) + FillRounding(st, fill)) * sizes(fill.market)
  {
    var m, s, size, mark := fill.market, Signed(fill.side, fill.quantity), sizes(fill.market), marks(fill.market);
    var acc := AccountOf(st, fill.account);
    var p := PositionOf(acc, m);
    var p', realized := Moved(p, s, fill.price), Realized(p, s, fill.price);
    assert p'.quantity == p.quantity + s && FillRounding(st, fill) == Rounding(p, s, fill.price);
    FillLaw(p, s, fill.price);
    ProfitStep(size, mark, p.quantity, p.entryPrice, s, fill.price, p'.entryPrice, realized, Rounding(p, s, fill.price));
    assert realized * size + Unrealized(p', size, mark) - Unrealized(p, size, mark)
           == (s * (mark - fill.price) + FillRounding(st, fill)) * size;
    hide Moved, Realized, Rounding, Unrealized, FillRounding;
    ProfitAfterMove(acc, AccountOf(ApplyFill(st, fill), fill.account), m, p', sizes, marks);
  }

  /** A fill changes total profit by its distance from the mark, and by its rounding. */
  lemma FillMovesProfit(st: RiskState, fill: Fill, sizes: U16 -> int, marks: U16 -> int)
    requires sizes(fill.market) == MarketOf(st, fill.market).config.contractSize
    ensures TotalProfit(ApplyFill(st, fill), sizes, marks)
            == TotalProfit(st, sizes, marks)
               + (Signed(fill.side, fill.quantity) * (marks(fill.market) - fill.price) + FillRounding(st, fill)) * sizes(fill.market)
  {
    hide Moved, Realized, FillRounding;
    FillMovesAccountProfit(st, fill, sizes, marks);
    assert Sum(NEW_ACCOUNT.positions, UnrealizedAt(sizes, marks)) == 0;
    SumPut(st.accounts, ProfitOf(sizes, marks), fill.account, AccountOf(ApplyFill(st, fill), fill.account));
  }

  /** Moving one position changes an account's profit by that position's. */
  lemma ProfitAfterMove(acc: Account, acc': Account, m: U16, p': Position, sizes: U16 -> int, marks: U16 -> int)
    requires acc'.positions == acc.positions[m := p']
    ensures Sum(acc'.positions, UnrealizedAt(sizes, marks))
            == Sum(acc.positions, UnrealizedAt(sizes, marks))
               - Unrealized(PositionOf(acc, m), sizes(m), marks(m)) + Unrealized(p', sizes(m), marks(m))
  {
    SumPut(acc.positions, UnrealizedAt(sizes, marks), m, p');
  }

  lemma ProfitStep(size: int, mark: int, q: int, e: int, s: int, price: int, e': int, realized: int, rounding: int)
    requires realized - (q + s) * e' == -(q * e) - s * price + rounding
    ensures realized * size + (q + s) * (mark - e') * size - q * (mark - e) * size
            == (s * (mark - price) + rounding) * size
  {
    var x, y, z := (q + s) * e', q * e, s * price;
    var u, v := q * mark, s * mark;
    assert (q + s) * (mark - e') == u + v - x;
    assert q * (mark - e) == u - y;
    assert s * (mark - price) == v - z;
    var left, right := realized + (u + v - x) - (u - y), v - z + rounding;
    assert left == right;
    assert realized * size + (u + v - x) * size - (u - y) * size == left * size;
  }

  /**
   Both sides of a trade: total profit at any marks moves by rounding alone, and
   no net position appears.
   */
  lemma TradeIsZeroSum(st: RiskState, taker: Fill, maker: Fill, sizes: U16 -> int, marks: U16 -> int)
    requires taker.market == maker.market && taker.price == maker.price && taker.quantity == maker.quantity
    requires taker.side == Opposite(maker.side)
    requires sizes(taker.market) == MarketOf(st, taker.market).config.contractSize
    ensures var st' := ApplyFill(ApplyFill(st, taker), maker);
            && TotalProfit(st', sizes, marks) == TotalProfit(st, sizes, marks)
               + (FillRounding(st, taker) + FillRounding(ApplyFill(st, taker), maker)) * sizes(taker.market)
            && forall m :: NetPosition(st', m) == NetPosition(st, m)
  {
    hide ApplyFill, TotalProfit, NetPosition, FillRounding;
    var mid := ApplyFill(st, taker);
    ConfigKept(st, taker, maker.market);
    TradeKeepsNet(st, taker, maker);
    FillMovesProfit(st, taker, sizes, marks);
    FillMovesProfit(mid, maker, sizes, marks);
    var s, d, size := Signed(taker.side, taker.quantity), marks(taker.market) - taker.price, sizes(taker.market);
    var r, r' := FillRounding(st, taker), FillRounding(mid, maker);
    assert Signed(maker.side, maker.quantity) == -s;
    OppositeLegs(s, d, r, r', size);
  }

  lemma ConfigKept(st: RiskState, fill: Fill, m: U16)
    ensures MarketOf(ApplyFill(st, fill), m).config == MarketOf(st, m).config
  {
  }

  lemma TradeKeepsNet(st: RiskState, taker: Fill, maker: Fill)
    requires taker.market == maker.market && taker.quantity == maker.quantity && taker.side == Opposite(maker.side)
    ensures forall m :: NetPosition(ApplyFill(ApplyFill(st, taker), maker), m) == NetPosition(st, m)
  {
    hide ApplyFill, NetPosition;
    forall m
      ensures NetPosition(ApplyFill(ApplyFill(st, taker), maker), m) == NetPosition(st, m)
    {
      FillMovesNet(st, taker, m);
      FillMovesNet(ApplyFill(st, taker), maker, m);
    }
  }

  lemma OppositeLegs(s: int, d: int, r: int, r': int, size: int)
    ensures (s * d + r) * size + (-s * d + r') * size == (r + r') * size
  {
    var x := s * d;
    assert -s * d == -x;
  }

  // ----- one fill, taken apart -----

  /** What a fill leaves alone: other accounts, the account's other positions, and all markets but a new one. */
  lemma FillTouchesOnePosition(st: RiskState, fill: Fill)
    ensures forall a :: a != fill.account ==> AccountOf(ApplyFill(st, fill), a) == AccountOf(st, a)
    ensures AccountOf(ApplyFill(st, fill), fill.account).positions - {fill.market} == AccountOf(st, fill.account).positions - {fill.market}
    ensures forall m :: MarketOf(ApplyFill(st, fill), m) == MarketOf(st, m)
  {
    hide Moved, Realized;
  }

  /** Extending: the entry price is the average over all that was paid, rounded toward zero. */
  lemma AverageIsTruncated(p: Position, s: int, price: int)
    requires Extends(p.quantity, s) && p.quantity + s != 0
    ensures var paid, size := p.entryPrice * Abs(p.quantity) + price * Abs(s), Abs(p.quantity + s);
            var rest := paid - Moved(p, s, price).entryPrice * size;
            (paid >= 0 ==> 0 <= rest < size) && (paid <= 0 ==> rest <= 0 && -rest < size)
  {
    ExtendingSize(p.quantity, s);
    var paid, size := WeightedNotional(p, s, price), Abs(p.quantity + s);
    assert Moved(p, s, price).entryPrice == TruncDiv(paid, size);
    hide TruncDiv;
  }

  /** Closing, in part or completely: the rest keeps its entry price, and the closed size realizes its distance from it. */
  lemma ClosingKeepsEntry(p: Position, s: int, price: int)
    requires !Extends(p.quantity, s) && Abs(s) <= Abs(p.quantity)
    ensures Moved(p, s, price) == Position(p.quantity + s, if p.quantity + s == 0 then 0 else p.entryPrice)
    ensures Realized(p, s, price) == -s * (price - p.entryPrice)
  {
    assert s > 0 ==> s * (p.entryPrice - price) == -s * (price - p.entryPrice);
  }

  /** A fill on a flat position, of any size, enters at its own price. */
  lemma OpeningAtPrice(s: int, price: int)
    ensures s != 0 ==> Moved(FLAT, s, price) == Position(s, price)
    ensures Realized(FLAT, s, price) == 0 && Rounding(FLAT, s, price) == 0
  {
    if s != 0 {
      var size := Abs(s);
      assert WeightedNotional(FLAT, s, price) == price * size;
      WholeQuotient(price, size);
    }
  }

  lemma WholeQuotient(x: int, size: int)
    requires size > 0
    ensures TruncDiv(x * size, size) == x
  {
    hide TruncDiv;
    var q := TruncDiv(x * size, size);
    var d := x - q;
    assert d * size == x * size - q * size;
    assert d >= 1 ==> (d - 1) * size >= 0;
    assert d <= -1 ==> (-1 - d) * size >= 0;
  }

  /** The part of a fill that closes a position, and what is left of the fill. */
  function ClosingPart(st: RiskState, fill: Fill): Fill {
    var q := PositionOf(AccountOf(st, fill.account), fill.market).quantity;
    fill.(quantity := if fill.side.Buy? then -q else q)
  }

  function OpeningPart(st: RiskState, fill: Fill): Fill {
    fill.(quantity := fill.quantity - ClosingPart(st, fill).quantity)
  }

  predicate Flips(q: int, s: int) {
    (q > 0 && q + s < 0) || (q < 0 && q + s > 0)
  }

  /** A fill that flips a position is the fill that closes all of it, followed by one that opens the rest, at the same price. */
  lemma FlipIsCloseThenOpen(st: RiskState, fill: Fill)
    requires Flips(PositionOf(AccountOf(st, fill.account), fill.market).quantity, Signed(fill.side, fill.quantity))
    ensures ApplyFill(st, fill) == ApplyFill(ApplyFill(st, ClosingPart(st, fill)), OpeningPart(st, fill))
    ensures PositionOf(AccountOf(ApplyFill(st, ClosingPart(st, fill)), fill.account), fill.market) == FLAT
  {
    var p, s, price := PositionOf(AccountOf(st, fill.account), fill.market), Signed(fill.side, fill.quantity), fill.price;
    assert Signed(fill.side, ClosingPart(st, fill).quantity) == -p.quantity;
    assert Signed(fill.side, OpeningPart(st, fill).quantity) == p.quantity + s;
    FlipParts(p, s, price);
    OpeningAtPrice(p.quantity + s, price);
    FillInTwo(st, fill, ClosingPart(st, fill).quantity);
  }

  /** If the position law allows to take a fill in two, so does the whole risk state. */
  lemma FillInTwo(st: RiskState, fill: Fill, first: int)
    requires var p, price := PositionOf(AccountOf(st, fill.account), fill.market), fill.price;
             var a, b := Signed(fill.side, first), Signed(fill.side, fill.quantity - first);
             && Moved(p, a + b, price) == Moved(Moved(p, a, price), b, price)
             && Realized(p, a + b, price) == Realized(p, a, price) + Realized(Moved(p, a, price), b, price)
    ensures ApplyFill(ApplyFill(st, fill.(quantity := first)), fill.(quantity := fill.quantity - first)) == ApplyFill(st, fill)
  {
    hide Realized, Moved;
    var p, price := PositionOf(AccountOf(st, fill.account), fill.market), fill.price;
    var a, b := Signed(fill.side, first), Signed(fill.side, fill.quantity - first);
    var mid, p' := ApplyFill(st, fill.(quantity := first)), Moved(p, a, price);
    Scale(Realized(p, a, price), Realized(p', b, price), MarketOf(st, fill.market).config.contractSize);
    SamePositions(AccountOf(st, fill.account).positions, fill.market, p', Moved(p, a + b, price));
    assert mid.accounts[fill.account := AccountOf(ApplyFill(st, fill), fill.account)] == ApplyFill(st, fill).accounts;
    assert mid.markets[fill.market := MarketOf(mid, fill.market)] == mid.markets;
  }

  lemma FlipParts(p: Position, s: int, price: int)
    requires Flips(p.quantity, s)
    ensures Moved(p, s, price) == Position(p.quantity + s, price)
    ensures Moved(p, -p.quantity, price) == FLAT && Realized(p, s, price) == Realized(p, -p.quantity, price)
  {
  }

  lemma SamePositions<K, V>(m: map<K, V>, k: K, v: V, w: V)
    ensures m[k := v][k := w] == m[k := w]
  {
  }

  /** Whatever was held, a fill that opens or flips leaves a position worth nothing at the fill's price. */
  lemma OpenedAtCost(p: Position, s: int, price: int, size: int)
    requires s != 0 && (p == FLAT || Flips(p.quantity, s))
    ensures Unrealized(Moved(p, s, price), size, price) == 0
  {
    if p == FLAT {
      OpeningAtPrice(s, price);
    } else {
      FlipParts(p, s, price);
    }
  }

  /** Closing in two fills at one price is closing in one. */
  lemma ClosingInPieces(st: RiskState, fill: Fill, first: int)
    requires var q, s := PositionOf(AccountOf(st, fill.account), fill.market).quantity, Signed(fill.side, fill.quantity);
             && !Extends(q, s) && Abs(s) <= Abs(q) && 0 < first < fill.quantity
    ensures ApplyFill(ApplyFill(st, fill.(quantity := first)), fill.(quantity := fill.quantity - first)) == ApplyFill(st, fill)
  {
    var p, price := PositionOf(AccountOf(st, fill.account), fill.market), fill.price;
    var a, b := Signed(fill.side, first), Signed(fill.side, fill.quantity - first);
    ClosingKeepsEntry(p, a + b, price);
    ClosingKeepsEntry(p, a, price);
    ClosingKeepsEntry(Moved(p, a, price), b, price);
    Scale(a, b, price - p.entryPrice);
    hide Realized;
    FillInTwo(st, fill, first);
  }

  // ----- what a mark is worth -----

  /** The same marks, one higher in one market. */
  function Raised(marks: U16 -> int, m: U16): U16 -> int {
    (k: U16) => if k == m then marks(k) + 1 else marks(k)
  }

  function ScaledQuantityIn(m: U16, size: int): (U64, Account) -> int {
    (a: U64, acc: Account) => PositionOf(acc, m).quantity * size
  }

  lemma RaisedPositions(acc: Account, sizes: U16 -> int, marks: U16 -> int, m: U16)
    ensures Sum(acc.positions, UnrealizedAt(sizes, Raised(marks, m)))
            == Sum(acc.positions, UnrealizedAt(sizes, marks)) + PositionOf(acc, m).quantity * sizes(m)
  {
    var ps: map<U16, Position> := acc.positions;
    SumSplit<U16, Position>(ps, UnrealizedAt(sizes, Raised(marks, m)), ps, UnrealizedAt(sizes, marks), m);
    if m in ps {
      RaisedTerm(ps[m].quantity, marks(m) - ps[m].entryPrice, sizes(m));
    }
  }

  lemma RaisedTerm(q: int, x: int, size: int)
    ensures q * (x + 1) * size == q * x * size + q * size
  {
    assert q * (x + 1) == q * x + q;
  }

  /** Raising a mark by one raises total profit by the market's net position times its contract size. */
  lemma MarkMovesProfit(st: RiskState, sizes: U16 -> int, marks: U16 -> int, m: U16)
    ensures TotalProfit(st, sizes, Raised(marks, m)) == TotalProfit(st, sizes, marks) + NetPosition(st, m) * sizes(m)
  {
    var f, g, h := ProfitOf(sizes, Raised(marks, m)), ProfitOf(sizes, marks), ScaledQuantityIn(m, sizes(m));
    forall a | a in st.accounts
      ensures f(a, st.accounts[a]) == g(a, st.accounts[a]) + h(a, st.accounts[a])
    {
      RaisedPositions(st.accounts[a], sizes, marks, m);
    }
    SumOfSums(st.accounts, f, g, h);
    SumScaled(st.accounts, h, QuantityIn(m), sizes(m));
  }

  // ----- reported equity: realized profit counted twice -----

  ghost function EquityOf(sizes: U16 -> int, marks: U16 -> int): (U64, Account) -> int {
    (a: U64, acc: Account) => acc.collateral + acc.realizedPnl + Sum(acc.positions, UnrealizedAt(sizes, marks))
  }

  /** The equity that summaries report, over all accounts. */
  ghost function TotalEquity(st: RiskState, sizes: U16 -> int, marks: U16 -> int): int {
    Sum(st.accounts, EquityOf(sizes, marks))
  }

  /** What a fill realizes, per unit of contract size. */
  function FillRealized(st: RiskState, fill: Fill): int {
    Realized(PositionOf(AccountOf(st, fill.account), fill.market), Signed(fill.side, fill.quantity), fill.price)
  }

  function CollateralOf(): (U64, Account) -> int {
    (a: U64, acc: Account) => acc.collateral
  }

  /** Equity is profit plus collateral, and a fill books what it realizes to the collateral as well. */
  lemma EquityIsProfitPlusCollateral(st: RiskState, sizes: U16 -> int, marks: U16 -> int)
    ensures TotalEquity(st, sizes, marks) == TotalProfit(st, sizes, marks) + Sum(st.accounts, CollateralOf())
  {
    SumOfSums(st.accounts, EquityOf(sizes, marks), ProfitOf(sizes, marks), CollateralOf());
  }

  lemma FillMovesCollateral(st: RiskState, fill: Fill)
    ensures Sum(ApplyFill(st, fill).accounts, CollateralOf())
            == Sum(st.accounts, CollateralOf()) + FillRealized(st, fill) * MarketOf(st, fill.market).config.contractSize
  {
    SumPut(st.accounts, CollateralOf(), fill.account, ApplyFill(st, fill).accounts[fill.account]);
  }

  /** A fill changes total reported equity by its distance from the mark, its rounding, and once more what it realizes. */
  lemma FillMovesEquity(st: RiskState, fill: Fill, sizes: U16 -> int, marks: U16 -> int)
    requires sizes(fill.market) == MarketOf(st, fill.market).config.contractSize
    ensures TotalEquity(ApplyFill(st, fill), sizes, marks)
            == TotalEquity(st, sizes, marks)
               + (Signed(fill.side, fill.quantity) * (marks(fill.market) - fill.price) + FillRounding(st, fill)) * sizes(fill.market)
               + FillRealized(st, fill) * sizes(fill.market)
  {
    hide ApplyFill, TotalEquity, TotalProfit, FillRounding, FillRealized;
    EquityIsProfitPlusCollateral(st, sizes, marks);
    EquityIsProfitPlusCollateral(ApplyFill(st, fill), sizes, marks);
    FillMovesProfit(st, fill, sizes, marks);
    FillMovesCollateral(st, fill);
  }

  /**
   Both sides of a trade: total reported equity moves by the roundings and by
   what the two legs realize.  Beyond rounding it is conserved exactly when the
   realized amounts cancel or the contract size is zero.
   */
  lemma TradeMovesEquity(st: RiskState, taker: Fill, maker: Fill, sizes: U16 -> int, marks: U16 -> int)
    requires taker.market == maker.market && taker.price == maker.price && taker.quantity == maker.quantity
    requires taker.side == Opposite(maker.side)
    requires sizes(taker.market) == MarketOf(st, taker.market).config.contractSize
    ensures var mid := ApplyFill(st, taker);
            var rounding := (FillRounding(st, taker) + FillRounding(mid, maker)) * sizes(taker.market);
            var realized := FillRealized(st, taker) + FillRealized(mid, maker);
            && TotalEquity(ApplyFill(mid, maker), sizes, marks)
               == TotalEquity(st, sizes, marks) + rounding + realized * sizes(taker.market)
            && (TotalEquity(ApplyFill(mid, maker), sizes, marks) == TotalEquity(st, sizes, marks) + rounding
                <==> realized == 0 || sizes(taker.market) == 0)
  {
    hide ApplyFill, TotalEquity, TotalProfit, FillRounding, FillRealized, NetPosition;
    var mid := ApplyFill(st, taker);
    ConfigKept(st, taker, maker.market);
    EquityIsProfitPlusCollateral(st, sizes, marks);
    EquityIsProfitPlusCollateral(ApplyFill(mid, maker), sizes, marks);
    TradeIsZeroSum(st, taker, maker, sizes, marks);
    FillMovesCollateral(st, taker);
    FillMovesCollateral(mid, maker);
    EquityLegs(TotalProfit(st, sizes, marks), Sum(st.accounts, CollateralOf()),
               FillRounding(st, taker) + FillRounding(mid, maker), FillRealized(st, taker), FillRealized(mid, maker), sizes(taker.market));
  }

  lemma EquityLegs(profit: int, collateral: int, rounding: int, a: int, b: int, size: int)
    ensures var before, after := profit + collateral, (profit + rounding * size) + (collateral + a * size + b * size);
            after == before + rounding * size + (a + b) * size
            && (after == before + rounding * size <==> a + b == 0 || size == 0)
  {
    Scale(a, b, size);
    ZeroProduct(a + b, size);
  }

  lemma ZeroProduct(a: int, b: int)
    ensures a * b == 0 <==> a == 0 || b == 0
  {
  }

  lemma ClosingAndOpening()
    ensures Realized(Position(1, 10), -1, 20) == 10 && Rounding(Position(1, 10), -1, 20) == 0
    ensures Realized(FLAT, 1, 20) == 0 && Rounding(FLAT, 1, 20) == 0
  {
  }

  /** One closes at a profit against a newcomer: equity of ten appears. */
  lemma TradeMintsEquity() returns (st: RiskState, taker: Fill, maker: Fill, ones: U16 -> int, marks: U16 -> int)
    ensures taker.market == maker.market && taker.price == maker.price && taker.quantity == maker.quantity
    ensures taker.side == Opposite(maker.side) && ones(taker.market) == MarketOf(st, taker.market).config.contractSize
    ensures TotalEquity(ApplyFill(ApplyFill(st, taker), maker), ones, marks) == TotalEquity(st, ones, marks) + 10
    ensures TotalProfit(ApplyFill(ApplyFill(st, taker), maker), ones, marks) == TotalProfit(st, ones, marks)
  {
    st := RiskState(map[1 := Account(0, 0, map[1 := Position(1, 10)])], map[]);
    taker, maker := Fill(1, 1, Sell, 1, 20), Fill(2, 1, Buy, 1, 20);
    ones, marks := _ => 1, _ => 20;
    hide TotalEquity, TotalProfit, NetPosition, Realized, Rounding, Moved;
    assert AccountOf(ApplyFill(st, taker), 2) == NEW_ACCOUNT;
    ClosingAndOpening();
    hide ApplyFill, FillRounding, FillRealized;
    TradeMovesEquity(st, taker, maker, ones, marks);
    TradeIsZeroSum(st, taker, maker, ones, marks);
  }
}
