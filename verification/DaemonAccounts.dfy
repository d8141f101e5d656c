/** What every single account earns over whole runs of the daemon. */
module DaemonAccounts {
  import opened Common
  import opened OrderBook
  import opened BookInvariant
  import opened BookTheorems
  import opened BookRuns
  import opened BookAnswers
  import opened Daemon
  import opened DaemonLedger
  import opened DaemonProfit
  import Risk

  // ----- fills are at the maker's price -----

  lemma QueueLookup(b: Book, side: Side, k: nat)
    requires BookInv(b) && k < |Queue(b, side)|
    ensures Contains(b, Queue(b, side)[k].request.id) && Lookup(b, Queue(b, side)[k].request.id) == Queue(b, side)[k]
  {
    var q := Queue(b, side);
    RemovalById(b, side, q[k], k, q[..k] + q[k + 1..]);
  }

  /** Every fill is at the price at which its maker rests before the message. */
  lemma FillsAtMakersPrice(d: State, market: U16, msg: Message)
    requires EngineInv(d.engine)
    ensures forall k :: 0 <= k < |MessageFills(d, market, msg)| ==>
              var fill := MessageFills(d, market, msg)[k];
              Rests(d, fill.maker) && fill.price == Lookup(d.engine[fill.maker.market], fill.maker).request.price
  {
    hide MessageFills, AppliedFills, Place, BookInv, InMarket, Contains, RemoveId, RiskAccepts, EngineInv, Lookup;
    MessageMakersRest(d, market, msg);
    if AttemptOf(d, market, msg).None? {
      NoAttemptNoFills(d, market, msg);
    } else {
      var a := AttemptOf(d, market, msg).value;
      AttemptOk(d, market, msg);
      FillsNameMakers(a.book, a.order);
      forall k | 0 <= k < |MessageFills(d, market, msg)|
        ensures var fill := MessageFills(d, market, msg)[k];
                Rests(d, fill.maker) && fill.price == Lookup(d.engine[fill.maker.market], fill.maker).request.price
      {
        QueueLookup(a.book, Opposite(a.order.side), k);
        InMarketQueue(a.book, Opposite(a.order.side), a.order.id.market, k);
        assert Rests(d, MessageFills(d, market, msg)[k].maker);
        AttemptLookup(d, market, msg, MessageFills(d, market, msg)[k].maker);
      }
    }
  }

  /** An order that rests in the book of an attempt is the one that rested before the message. */
  lemma AttemptLookup(d: State, market: U16, msg: Message, id: OrderId)
    requires EngineInv(d.engine) && AttemptOf(d, market, msg).Some? && Rests(d, id)
    requires id.market == AttemptOf(d, market, msg).value.order.id.market && Contains(AttemptOf(d, market, msg).value.book, id)
    ensures Lookup(AttemptOf(d, market, msg).value.book, id) == Lookup(d.engine[id.market], id)
  {
    hide RiskAccepts, RemoveId, BookInv, InMarket, Lookup, Contains;
    if msg.Amending? {
      var key := Decode(msg.amendment.orderId);
      RemoveIdKeeps(d.engine[key.market], key);
      RemovalKeepsOthers(d.engine[key.market], key, id);
    }
  }

  // ----- what legs earn -----

  /** What a leg is worth to an account at given marks: its distance from the mark, and its rounding. */
  function LegProfit(risk: Risk.RiskState, leg: Risk.Fill, a: U64, sizes: U16 -> int, marks: U16 -> int): int {
    if leg.account == a then
      ((if leg.side == Buy then leg.quantity else -leg.quantity) * (marks(leg.market) - leg.price) + Risk.FillRounding(risk, leg))
      * sizes(leg.market)
    else 0
  }

  lemma LegEarns(risk: Risk.RiskState, leg: Risk.Fill, a: U64, sizes: U16 -> int, marks: U16 -> int)
    requires SizesOf(risk, sizes)
    ensures Risk.ProfitIn(Risk.ApplyFill(risk, leg), a, sizes, marks)
            == Risk.ProfitIn(risk, a, sizes, marks) + LegProfit(risk, leg, a, sizes, marks)
    ensures SizesOf(Risk.ApplyFill(risk, leg), sizes)
  {
    hide Risk.ApplyFill, Risk.FillRounding;
    SizesKept(risk, leg, sizes);
    if leg.account == a {
      Risk.FillMovesAccountProfit(risk, leg, sizes, marks);
    } else {
      Risk.FillTouchesOnePosition(risk, leg);
    }
  }

  /** What the true legs of some fills earn an account. */
  ghost function LegsProfit(risk: Risk.RiskState, d: State, fills: seq<FillEvent>, taker: Context, a: U64,
                            sizes: U16 -> int, marks: U16 -> int): int {
    if fills == [] then 0
    else
      var before, fill := fills[..|fills| - 1], fills[|fills| - 1];
      var mid := ProcessFills(risk, d.resting, before, taker);
      LegsProfit(risk, d, before, taker, a, sizes, marks)
      + LegProfit(mid, Leg(fill, taker), a, sizes, marks)
      + if Rests(d, fill.maker) then
          LegProfit(Risk.ApplyFill(mid, Leg(fill, taker)), Leg(fill, TrueOwner(d, fill.maker)), a, sizes, marks)
        else 0
  }

  lemma {:induction false} ProcessedProfit(risk: Risk.RiskState, d: State, fills: seq<FillEvent>, taker: Context, a: U64,
                                           sizes: U16 -> int, marks: U16 -> int)
    requires MakersRest(d, fills) && SizesOf(risk, sizes)
    requires forall k :: 0 <= k < |fills| ==>
               Encode(fills[k].maker) in d.resting && d.resting[Encode(fills[k].maker)] == TrueOwner(d, fills[k].maker)
    ensures var risk' := ProcessFills(risk, d.resting, fills, taker);
            && SizesOf(risk', sizes)
            && Risk.ProfitIn(risk', a, sizes, marks)
               == Risk.ProfitIn(risk, a, sizes, marks) + LegsProfit(risk, d, fills, taker, a, sizes, marks)
  {
    hide LegProfit, Risk.ApplyFill, TrueOwner, SizesOf, Risk.ProfitIn;
    if fills != [] {
      var before, fill := fills[..|fills| - 1], fills[|fills| - 1];
      ProcessedProfit(risk, d, before, taker, a, sizes, marks);
      var mid, leg := ProcessFills(risk, d.resting, before, taker), TakerLeg(fill, taker);
      assert Rests(d, fill.maker);
      LegEarns(mid, leg, a, sizes, marks);
      LegEarns(Risk.ApplyFill(mid, leg), TakerLeg(fill, TrueOwner(d, fill.maker)), a, sizes, marks);
    }
  }

  ghost function MessageProfit(d: State, market: U16, msg: Message, a: U64, sizes: U16 -> int, marks: U16 -> int): int {
    if LosesFills(d, market, msg) then 0
    else LegsProfit(d.risk, d, MessageFills(d, market, msg), TrueTaker(d, market, msg), a, sizes, marks)
  }

  /** In a coherent state a message earns every account what its true legs are worth, or nothing when it loses its fills. */
  lemma MessageEarns(d: State, market: U16, msg: Message, a: U64, sizes: U16 -> int, marks: U16 -> int)
    requires Inv(d) && SizesOf(d.risk, sizes)
    ensures SizesOf(Handle(d, market, msg).risk, sizes)
    ensures Risk.ProfitIn(Handle(d, market, msg).risk, a, sizes, marks)
            == Risk.ProfitIn(d.risk, a, sizes, marks) + MessageProfit(d, market, msg, a, sizes, marks)
  {
    hide MessageFills, AppliedFills, Handle, LosesFills, Rests, TrueOwner, EngineInv, Coherent, SizesOf, Risk.ProfitIn, LegsProfit;
    var fills := MessageFills(d, market, msg);
    HandledRisk(d, market, msg);
    LosesFillsIff(d, market, msg);
    MessageMakersRest(d, market, msg);
    forall k | 0 <= k < |fills|
      ensures Encode(fills[k].maker) in d.resting && d.resting[Encode(fills[k].maker)] == TrueOwner(d, fills[k].maker)
    {
      RememberedIsTrue(d, fills[k].maker);
    }
    if msg.Amending? && Rests(d, Decode(msg.amendment.orderId)) {
      AmendContextIsTrue(d, msg.amendment);
    }
    if !LosesFills(d, market, msg) {
      ProcessedProfit(d.risk, d, fills, TakerContext(d, market, msg), a, sizes, marks);
    }
  }

  ghost function RunProfit(d: State, market: U16, msgs: seq<Message>, a: U64, sizes: U16 -> int, marks: U16 -> int): int {
    if msgs == [] then 0
    else
      var before := msgs[..|msgs| - 1];
      RunProfit(d, market, before, a, sizes, marks)
      + MessageProfit(RunDaemon(d, market, before), market, msgs[|msgs| - 1], a, sizes, marks)
  }

  /**
   Over every run that orphans nothing, every account has earned, at any marks,
   exactly what its own legs of the fills are worth: signed quantity times the
   distance of the maker's price from the mark, and rounding.
   */
  lemma {:induction false} EveryAccountIsPaid(d: State, market: U16, msgs: seq<Message>, a: U64, sizes: U16 -> int, marks: U16 -> int)
    requires Inv(d) && NoOrphans(d, market, msgs) && SizesOf(d.risk, sizes)
    ensures SizesOf(RunDaemon(d, market, msgs).risk, sizes)
    ensures Risk.ProfitIn(RunDaemon(d, market, msgs).risk, a, sizes, marks)
            == Risk.ProfitIn(d.risk, a, sizes, marks) + RunProfit(d, market, msgs, a, sizes, marks)
  {
    hide Handle, MessageProfit, Inv, NoOrphans, SizesOf, Risk.ProfitIn;
    if msgs != [] {
      var before := msgs[..|msgs| - 1];
      NoOrphansBefore(d, market, msgs);
      EveryAccountIsPaid(d, market, before, a, sizes, marks);
      RunKeepsOwners(d, market, before);
      MessageEarns(RunDaemon(d, market, before), market, msgs[|msgs| - 1], a, sizes, marks);
    }
  }
}
