/** The risk engine as a mutable object, and its queries with their accumulating loops. */
module RiskEngine {
  import opened Common
  import opened MapSums
  import opened Risk
  import opened Margin

  datatype Item = Item(market: U16, exposure: Exposure)

  /** The vector of exposures lists each entry of the map once, in some order. */
  ghost predicate Lists(items: seq<Item>, xs: map<U16, Exposure>) {
    if items == [] then xs == map[]
    else
      && items[0].market in xs && xs[items[0].market] == items[0].exposure
      && Lists(items[1..], xs - {items[0].market})
  }

  lemma {:induction false} ListsAppend(items: seq<Item>, xs: map<U16, Exposure>, item: Item)
    requires Lists(items, xs) && item.market !in xs
    ensures Lists(items + [item], xs[item.market := item.exposure])
  {
    var grown, ys := items + [item], xs[item.market := item.exposure];
    if items == [] {
      assert grown[1..] == [] && ys - {item.market} == map[];
    } else {
      ListsAppend(items[1..], xs - {items[0].market}, item);
      assert grown[1..] == items[1..] + [item];
      assert ys - {items[0].market} == (xs - {items[0].market})[item.market := item.exposure];
    }
  }

  lemma {:induction false} ListsMember(items: seq<Item>, xs: map<U16, Exposure>, j: nat)
    requires Lists(items, xs) && j < |items|
    ensures items[j].market in xs && xs[items[j].market] == items[j].exposure
  {
    if j > 0 {
      ListsMember(items[1..], xs - {items[0].market}, j - 1);
    }
  }

  lemma {:induction false} ListsComplete(items: seq<Item>, xs: map<U16, Exposure>, m: U16)
    requires Lists(items, xs) && forall j :: 0 <= j < |items| ==> items[j].market != m
    ensures m !in xs
  {
    if items != [] {
      ListsComplete(items[1..], xs - {items[0].market}, m);
    }
  }

  lemma {:induction false} ListsUpdate(items: seq<Item>, xs: map<U16, Exposure>, j: nat, x: Exposure)
    requires Lists(items, xs) && j < |items|
    ensures Lists(items[j := Item(items[j].market, x)], xs[items[j].market := x])
  {
    ListsMember(items, xs, j);
    var changed, m := items[j := Item(items[j].market, x)], items[0].market;
    if j == 0 {
      assert changed[1..] == items[1..] && xs[m := x] - {m} == xs - {m};
    } else {
      ListsMember(items[1..], xs - {m}, j - 1);
      ListsUpdate(items[1..], xs - {m}, j - 1, x);
      assert changed[1..] == items[1..][j - 1 := Item(items[j].market, x)];
      assert xs[items[j].market := x] - {m} == (xs - {m})[items[j].market := x];
    }
  }

  class RiskEngine {
    var accounts: map<U64, Account>
    var markets: map<U16, MarketState>

    constructor ()
      ensures State() == RiskState(map[], map[])
    {
      accounts, markets := map[], map[];
    }

    ghost function State(): RiskState
      reads this
    {
      RiskState(accounts, markets)
    }

    method ConfigureMarket(market: U16, config: MarketConfig)
      modifies this
      ensures accounts == old(accounts)
      ensures markets == old(markets)[market := MarketState(config, if market in old(markets) then old(markets)[market].markPrice else 0)]
    {
      if market in markets {
        markets := markets[market := markets[market].(config := config)];
      } else {
        markets := markets[market := MarketState(config, 0)];
      }
    }

    method SetMarkPrice(market: U16, price: int)
      modifies this
      ensures State() == old(State()).(markets := old(markets)[market := MarketOf(old(State()), market).(markPrice := price)])
    {
      EnsureMarket(market);
      markets := markets[market := markets[market].(markPrice := price)];
    }

    method EnsureMarket(market: U16)
      modifies `markets
      ensures market in markets && markets == old(markets)[market := MarketOf(old(State()), market)]
    {
      if market !in markets {
        markets := markets[market := NEW_MARKET];
      }
    }

    method EnsureAccount(account: U64)
      modifies `accounts
      ensures account in accounts && accounts == old(accounts)[account := AccountOf(old(State()), account)]
    {
      if account !in accounts {
        accounts := accounts[account := NEW_ACCOUNT];
      }
    }

    method CreditCollateral(account: U64, amount: int)
      modifies this
      ensures State() == Credit(old(State()), account, amount)
    {
      EnsureAccount(account);
      accounts := accounts[account := accounts[account].(collateral := accounts[account].collateral + amount)];
    }

    method DebitCollateral(account: U64, amount: int)
      modifies this
      ensures State() == Credit(old(State()), account, -amount)
    {
      EnsureAccount(account);
      accounts := accounts[account := accounts[account].(collateral := accounts[account].collateral - amount)];
    }

    method ApplyFill(fill: Fill)
      modifies this
      ensures State() == Risk.ApplyFill(old(State()), fill)
    {
      EnsureMarket(fill.market);
      EnsureAccount(fill.account);
      var account := accounts[fill.account];
      var position := if fill.market in account.positions then account.positions[fill.market] else FLAT;
      var signedQty := if fill.side.Buy? then fill.quantity else -fill.quantity;
      var contractSize := markets[fill.market].config.contractSize;
      var previousQty := position.quantity;

      if previousQty == 0 || (previousQty > 0 && signedQty > 0) || (previousQty < 0 && signedQty < 0) {
        var newQty := previousQty + signedQty;
        var entryPrice := 0;
        if newQty != 0 {
          var totalAbs := Abs(previousQty) + Abs(signedQty);
          var weightedNotional := position.entryPrice * Abs(previousQty) + fill.price * Abs(signedQty);
          entryPrice := if totalAbs == 0 then 0 else TruncDiv(weightedNotional, totalAbs);
        }
        Store(fill, account.(positions := account.positions[fill.market := Position(newQty, entryPrice)]));
        return;
      }

      var closingQty := Min(Abs(previousQty), Abs(signedQty));
      var pnlPerContract := if previousQty > 0 then fill.price - position.entryPrice else position.entryPrice - fill.price;
      var realized := closingQty * pnlPerContract * contractSize;
      var remainder := previousQty + signedQty;
      var entryPrice := position.entryPrice;
      if remainder == 0 {
        entryPrice := 0;
      } else if (previousQty > 0 && remainder < 0) || (previousQty < 0 && remainder > 0) {
        entryPrice := fill.price;
      }
      Store(fill, Account(account.collateral + realized, account.realizedPnl + realized,
                          account.positions[fill.market := Position(remainder, entryPrice)]));
    }

    method Store(fill: Fill, account: Account)
      modifies `accounts
      ensures accounts == old(accounts)[fill.account := account]
    {
      accounts := accounts[fill.account := account];
    }

    /** Collect the positions of an account, in whatever order the map yields them. */
    method CollectExposures(account: Account) returns (items: seq<Item>)
      ensures Lists(items, Held(account))
    {
      items := [];
      var left := account.positions.Keys;
      ghost var done: map<U16, Exposure> := map[];
      while left != {}
        invariant left <= account.positions.Keys
        invariant done.Keys == account.positions.Keys - left
        invariant forall m :: m in done ==> done[m] == Held(account)[m]
        invariant Lists(items, done)
        decreases left
      {
        var m :| m in left;
        var p := account.positions[m];
        var item := Item(m, Exposure(p.quantity, p.entryPrice, true));
        ListsAppend(items, done, item);
        items, left := items + [item], left - {m};
        done := done[m := item.exposure];
      }
      assert done == Held(account);
    }

    /** Add the hypothetical fill to the exposure of its market. */
    method AddDelta(items: seq<Item>, delta: Fill, ghost xs: map<U16, Exposure>) returns (items': seq<Item>)
      requires Lists(items, xs) && forall m :: m in xs ==> xs[m].existed
      ensures Lists(items', WithDelta(xs, Some(delta)))
    {
      var signedQty := if delta.side.Buy? then delta.quantity else -delta.quantity;
      var j := 0;
      while j < |items| && items[j].market != delta.market
        invariant j <= |items|
        invariant forall k :: 0 <= k < j ==> items[k].market != delta.market
      {
        j := j + 1;
      }
      if j < |items| {
        ListsMember(items, xs, j);
        // Every listed exposure comes from a position, so its entry price is kept.
        var x := items[j].exposure.(quantity := items[j].exposure.quantity + signedQty);
        ListsUpdate(items, xs, j, x);
        items' := items[j := Item(items[j].market, x)];
      } else {
        ListsComplete(items, xs, delta.market);
        var item := Item(delta.market, Exposure(signedQty, delta.price, false));
        ListsAppend(items, xs, item);
        items' := items + [item];
      }
    }

    method AccountSummaryWithDelta(account: U64, delta: Option<Fill>) returns (summary: MarginSummary)
      ensures summary == Summary(State(), account, delta)
    {
      summary := MarginSummary(0, 0, 0);
      var items: seq<Item> := [];
      ghost var acc := AccountOf(State(), account);
      if account in accounts {
        summary := summary.(equity := accounts[account].collateral + accounts[account].realizedPnl);
        items := CollectExposures(accounts[account]);
      } else {
        assert Held(acc) == map[];
      }
      if delta.Some? {
        items := AddDelta(items, delta.value, Held(acc));
      }
      ghost var xs := WithDelta(Held(acc), delta);
      ghost var rest, start := xs, summary.equity;
      ghost var f, g, h := EquityTerm(markets, delta), InitialTerm(markets, delta), MaintenanceTerm(markets, delta);
      var i := 0;
      while i < |items|
        invariant i <= |items| && Lists(items[i..], rest)
        invariant summary.equity + Sum(rest, f) == start + Sum(xs, f)
        invariant summary.initialMargin + Sum(rest, g) == Sum(xs, g)
        invariant summary.maintenanceMargin + Sum(rest, h) == Sum(xs, h)
      {
        var item := items[i];
        assert items[i..][0] == item && items[i..][1..] == items[i + 1..];
        SumTake(rest, f, item.market);
        SumTake(rest, g, item.market);
        SumTake(rest, h, item.market);
        rest := rest - {item.market};
        summary := AddExposure(summary, item, delta);
        i := i + 1;
      }
    }

    /** The body of the summing loop. */
    method AddExposure(summary: MarginSummary, item: Item, delta: Option<Fill>) returns (r: MarginSummary)
      ensures r == MarginSummary(summary.equity + EquityTerm(markets, delta)(item.market, item.exposure),
                                 summary.initialMargin + InitialTerm(markets, delta)(item.market, item.exposure),
                                 summary.maintenanceMargin + MaintenanceTerm(markets, delta)(item.market, item.exposure))
    {
      r := summary;
      var x := item.exposure;
      if x.quantity == 0 || item.market !in markets {
        return;
      }
      var state := markets[item.market];
      var markPrice := state.markPrice;
      if markPrice == 0 {
        if delta.Some? && delta.value.market == item.market && delta.value.price != 0 {
          markPrice := delta.value.price;
        } else if x.entryPrice != 0 {
          markPrice := x.entryPrice;
        }
      }
      var contractSize := state.config.contractSize;
      var notional := Abs(x.quantity) * markPrice * contractSize;
      r := r.(initialMargin := r.initialMargin + ApplyBasisPoints(notional, state.config.initialMarginBp),
              maintenanceMargin := r.maintenanceMargin + ApplyBasisPoints(notional, state.config.maintenanceMarginBp));
      if x.existed {
        r := r.(equity := r.equity + x.quantity * (markPrice - x.entryPrice) * contractSize);
      }
    }

    method EvaluateOrder(intent: OrderIntent) returns (result: RiskResult)
      ensures result == Margin.EvaluateOrder(State(), intent)
    {
      if intent.market !in markets {
        return RiskResult(RejectedUnknownMarket, Risk.REJECT_UNKNOWN_MARKET, 0, 0, 0);
      }
      var existingQty := 0;
      if intent.account in accounts {
        if intent.market in accounts[intent.account].positions {
          existingQty := accounts[intent.account].positions[intent.market].quantity;
        }
      }
      var signedQty := if intent.side.Buy? then intent.quantity else -intent.quantity;
      if intent.reduceOnly && Abs(existingQty + signedQty) > Abs(existingQty) {
        return RiskResult(RejectedReduceOnly, REJECT_REDUCE_ONLY, 0, 0, 0);
      }
      var s := AccountSummaryWithDelta(
        intent.account, Some(Fill(intent.account, intent.market, intent.side, intent.quantity, intent.limitPrice)));
      if s.initialMargin > s.equity {
        return RiskResult(RejectedInsufficientMargin, REJECT_INSUFFICIENT_MARGIN, s.equity, s.initialMargin, s.maintenanceMargin);
      }
      return RiskResult(Accepted, 0, s.equity, s.initialMargin, s.maintenanceMargin);
    }

    /** The liquidation manager's query. */
    method EvaluateLiquidation(account: U64) returns (result: Liquidation)
      ensures result == Classify(Summary(State(), account, None))
    {
      var s := AccountSummaryWithDelta(account, None);
      result := Liquidation(Healthy, s.equity, s.initialMargin, s.maintenanceMargin, 0);
      if s.maintenanceMargin == 0 {
        return result;
      }
      if s.equity < s.maintenanceMargin {
        return result.(status := NeedsFull, deficit := s.maintenanceMargin - s.equity);
      }
      if s.equity < s.initialMargin {
        return result.(status := NeedsPartial, deficit := s.initialMargin - s.equity);
      }
    }
  }
}
