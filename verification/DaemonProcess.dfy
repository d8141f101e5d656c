/** The daemon's message handlers over the live log, matcher and risk engine. */
module DaemonProcess {
  import opened Common
  import opened OrderBook
  import opened Daemon
  import Risk
  import Margin
  import Matching = MatchingEngine
  import RiskObject = RiskEngine
  import opened Journal
  import Frames
  import Wal
  import WalFiles

  class Process {
    const matcher: Matching.MatchingEngine
    const risk: RiskObject.RiskEngine
    const wal: WalFiles.Writer
    const codec: Codec
    const defaultMarket: U16
    var resting: map<U64, Context>

    constructor (market: U16, log: WalFiles.Writer, decoders: Codec)
      ensures Valid() && defaultMarket == market && wal == log && codec == decoders
      ensures forall o :: o in Repr() ==> o == log || fresh(o)
      ensures State() == EMPTY_STATE
    {
      matcher := new Matching.MatchingEngine();
      risk := new RiskObject.RiskEngine();
      wal, codec, defaultMarket, resting := log, decoders, market, map[];
    }

    ghost predicate Valid()
      reads this, matcher, matcher.Repr()
    {
      matcher.Valid() && this !in matcher.Repr() && risk !in matcher.Repr() && wal !in matcher.Repr()
    }

    ghost function Repr(): set<object>
      reads matcher
    {
      {this, matcher, risk, wal} + matcher.Repr()
    }

    ghost function Log(): Wal.WriterState
      reads wal
    {
      wal.State()
    }

    ghost function State(): Daemon.State
      reads this, matcher, risk
    {
      Daemon.State(matcher.books, risk.State(), resting)
    }

    /** Set up the configured markets in matcher and risk engine. */
    method Configure(setups: seq<MarketSetup>)
      requires Valid()
      modifies this, risk, matcher, matcher.Repr()
      ensures Valid() && State() == ConfigureAll(old(State()), setups)
      ensures forall o :: o in matcher.Repr() ==> o in old(matcher.Repr()) || fresh(o)
    {
      hide Matching.MatchingEngine.Valid, OrderBook.AddMarket;
      ghost var before := State();
      for i := 0 to |setups|
        invariant Valid() && State() == ConfigureAll(before, setups[..i])
        invariant forall o :: o in matcher.Repr() ==> o in old(matcher.Repr()) || fresh(o)
      {
        var setup := setups[i];
        assert setups[..i + 1][..i] == setups[..i];
        matcher.AddMarket(setup.market);
        risk.ConfigureMarket(setup.market, setup.config);
        risk.SetMarkPrice(setup.market, setup.markPrice);
      }
      assert setups[..|setups|] == setups;
    }

    /** Apply the taker's leg of every fill, and the maker's leg when its owner is remembered. */
    method ProcessFills(fills: seq<FillEvent>, taker: Context)
      modifies risk
      ensures risk.State() == Daemon.ProcessFills(old(risk.State()), resting, fills, taker)
    {
      hide Risk.ApplyFill;
      ghost var before := risk.State();
      for i := 0 to |fills|
        invariant risk.State() == Daemon.ProcessFills(before, resting, fills[..i], taker)
      {
        var fill := fills[i];
        assert fills[..i + 1][..i] == fills[..i];
        risk.ApplyFill(Risk.Fill(taker.account, taker.market, taker.side, fill.quantity, fill.price));
        if Encode(fill.maker) in resting {
          var maker := resting[Encode(fill.maker)];
          risk.ApplyFill(Risk.Fill(maker.account, maker.market, maker.side, fill.quantity, fill.price));
        }
      }
      assert fills[..|fills|] == fills;
    }

    method HandleNewOrder(msg: NewOrderMessage)
      requires Valid()
      modifies this, risk, matcher, matcher.Repr()
      ensures Valid() && State() == OnNewOrder(old(State()), defaultMarket, msg)
      ensures forall o :: o in matcher.Repr() ==> o in old(matcher.Repr()) || fresh(o)
    {
      hide Matching.MatchingEngine.Valid, Margin.EvaluateOrder, OnNewOrder;
      RefusedChangesNothing(State(), defaultMarket, msg);
      var orderId := OrderId(defaultMarket, msg.account % 0x1_0000, msg.nonce % 0x1_0000_0000);
      var verdict := risk.EvaluateOrder(
        Margin.OrderIntent(msg.account, defaultMarket, msg.side, msg.quantity, msg.price, msg.flags.reduceOnly));
      if verdict.decision.Accepted? {
        PlaceNewOrder(orderId, msg);
      }
    }

    /** The part of the handler behind the risk check. */
    method PlaceNewOrder(orderId: OrderId, msg: NewOrderMessage)
      requires Valid() && RiskAccepts(State(), defaultMarket, msg) && orderId == NewOrderId(defaultMarket, msg)
      modifies this, risk, matcher, matcher.Repr()
      ensures Valid() && State() == OnNewOrder(old(State()), defaultMarket, msg)
      ensures forall o :: o in matcher.Repr() ==> o in old(matcher.Repr()) || fresh(o)
    {
      hide Matching.MatchingEngine.Valid, Margin.EvaluateOrder, OrderBook.Submit, Daemon.ProcessFills, RiskAccepts;
      var result := matcher.Submit(
        OrderRequest(orderId, msg.account, msg.side, msg.quantity, msg.price, 0, Gtc, msg.flags));
      if !result.accepted {
        return;
      }
      var taker := Context(msg.account, defaultMarket, msg.side);
      ProcessFills(result.fills, taker);
      if result.resting {
        resting := resting[Encode(orderId) := taker];
      } else {
        resting := resting - {Encode(orderId)};
      }
    }

    method HandleCancel(orderId: U64)
      requires Valid()
      modifies this, matcher, matcher.Repr()
      ensures Valid() && State() == OnCancel(old(State()), orderId)
      ensures forall o :: o in matcher.Repr() ==> o in old(matcher.Repr()) || fresh(o)
    {
      hide Matching.MatchingEngine.ShardOk, OrderBook.Cancel;
      var id := Decode(orderId);
      var result := matcher.Cancel(id);
      if result.cancelled {
        resting := resting - {Encode(id)};
      }
    }

    method HandleReplace(msg: ReplaceMessage)
      requires Valid()
      modifies this, risk, matcher, matcher.Repr()
      ensures Valid() && State() == OnReplace(old(State()), msg)
      ensures forall o :: o in matcher.Repr() ==> o in old(matcher.Repr()) || fresh(o)
    {
      hide Matching.MatchingEngine.ShardOk, OrderBook.Replace, Daemon.ProcessFills;
      var id := Decode(msg.orderId);
      var taker := Context(msg.account, id.market, Buy);
      if Encode(id) in resting {
        taker := resting[Encode(id)];
      }
      var result := matcher.Replace(ReplaceRequest(id, msg.newQuantity, msg.newPrice, 0, Gtc, msg.newFlags));
      if result.accepted {
        ProcessFills(result.fills, taker);
      }
      if result.accepted && result.resting {
        resting := resting[Encode(id) := taker];
      } else if result.accepted && !result.resting {
        resting := resting - {Encode(id)};
      }
    }

    /** Log a frame, then handle it if it decodes. */
    method LogNewOrder(frame: Frames.Frame)
      requires Valid() && frame.kind.NewOrder?
      modifies this, risk, matcher, matcher.Repr(), wal
      ensures Valid() && State() == HandleFrame(codec, old(State()), defaultMarket, frame)
      ensures wal.State() == Wal.Appended(old(wal.State()), wal.flushThreshold, EntryOf(frame))
      ensures forall o :: o in matcher.Repr() ==> o in old(matcher.Repr()) || fresh(o)
    {
      hide Matching.MatchingEngine.Valid, OnNewOrder, BuildPayload, Wal.Appended;
      wal.Append(Wal.Entry(0, BuildPayload(frame)));
      var decoded := codec.newOrder(frame.payload);
      if decoded.Some? {
        var order := decoded.value;
        HandleNewOrder(NewOrderMessage(frame.account, frame.nonce, order.side, order.quantity, order.price, order.flags));
      }
    }

    method LogCancel(frame: Frames.Frame)
      requires Valid() && frame.kind.Cancel?
      modifies this, matcher, matcher.Repr(), wal
      ensures Valid() && State() == HandleFrame(codec, old(State()), defaultMarket, frame)
      ensures wal.State() == Wal.Appended(old(wal.State()), wal.flushThreshold, EntryOf(frame))
      ensures forall o :: o in matcher.Repr() ==> o in old(matcher.Repr()) || fresh(o)
    {
      hide Matching.MatchingEngine.Valid, OnCancel, BuildPayload, Wal.Appended;
      wal.Append(Wal.Entry(0, BuildPayload(frame)));
      var decoded := codec.cancel(frame.payload);
      if decoded.Some? {
        HandleCancel(decoded.value);
      }
    }

    method LogReplace(frame: Frames.Frame)
      requires Valid() && frame.kind.Replace?
      modifies this, risk, matcher, matcher.Repr(), wal
      ensures Valid() && State() == HandleFrame(codec, old(State()), defaultMarket, frame)
      ensures wal.State() == Wal.Appended(old(wal.State()), wal.flushThreshold, EntryOf(frame))
      ensures forall o :: o in matcher.Repr() ==> o in old(matcher.Repr()) || fresh(o)
    {
      hide Matching.MatchingEngine.Valid, OnReplace, BuildPayload, Wal.Appended;
      wal.Append(Wal.Entry(0, BuildPayload(frame)));
      var decoded := codec.amend(frame.payload);
      if decoded.Some? {
        var amend := decoded.value;
        HandleReplace(ReplaceMessage(frame.account, amend.orderId, amend.newQuantity, amend.newPrice, amend.newFlags));
      }
    }

    /** What the drain loops do with one frame of their lane. */
    method LogFrame(frame: Frames.Frame)
      requires Valid() && !frame.kind.Heartbeat?
      modifies Repr()
      ensures Valid() && State() == HandleFrame(codec, old(State()), defaultMarket, frame)
      ensures Log() == Wal.Appended(old(Log()), wal.flushThreshold, EntryOf(frame))
      ensures forall o :: o in Repr() ==> o in old(Repr()) || fresh(o)
    {
      hide Matching.MatchingEngine.Valid, HandleFrame, Wal.Appended, EntryOf;
      match frame.kind {
        case NewOrder => LogNewOrder(frame);
        case Cancel => LogCancel(frame);
        case Replace => LogReplace(frame);
      }
    }
  }
}
