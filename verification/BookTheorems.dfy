/** What the order book promises over single placements and over whole runs. */
module BookTheorems {
  import opened Common
  import opened OrderBook
  import opened Ladder
  import opened BookInvariant

  // ----- price-time priority -----

  function SumQuantity(fills: seq<FillEvent>): int {
    if fills == [] then 0 else fills[0].quantity + SumQuantity(fills[1..])
  }

  function FullFill(maker: Order, taker: OrderId): FillEvent {
    FillEvent(maker.request.id, taker, maker.remaining, maker.request.price)
  }

  /** An incoming order as the matching loop sees it. */
  datatype Taker = Taker(side: Side, limit: int, id: OrderId, quantity: int)

  /**
   The fills of a walk, said without the walk: the first n makers are filled
   completely, in priority order, each at its own price; at most one more maker
   trades, for part of its quantity, and then nothing is left of the taker.
   Every maker that trades is within the limit, and quantity is left over only
   when no maker is left or the next one is beyond the limit.
   */
  ghost predicate PriorityFills(makers: seq<Order>, t: Taker, n: nat, fills: seq<FillEvent>, remaining: int) {
    && n <= |makers| && n <= |fills| <= n + 1 && |fills| <= |makers|
    && (forall k :: 0 <= k < n ==> fills[k] == FullFill(makers[k], t.id))
    && (|fills| == n + 1 ==>
          && remaining == 0
          && fills[n] == FillEvent(makers[n].request.id, t.id, fills[n].quantity, makers[n].request.price)
          && 0 < fills[n].quantity < makers[n].remaining)
    && (forall k :: 0 <= k < |fills| ==> Crosses(t.side, t.limit, makers[k].request.price))
    && (remaining > 0 && n < |makers| ==> !Crosses(t.side, t.limit, makers[n].request.price))
    && SumQuantity(fills) == t.quantity - remaining
    && (if t.quantity <= 0 then fills == [] else remaining >= 0)
  }

  function TakerOf(req: OrderRequest): Taker {
    Taker(req.side, req.price, req.id, req.quantity)
  }

  /** These rules leave no choice: they determine the fills and what is left. */
  lemma {:induction false} PriorityFillsUnique(makers: seq<Order>, t: Taker, n: nat, fills: seq<FillEvent>, remaining: int)
    requires forall k :: 0 <= k < |makers| ==> makers[k].remaining > 0
    requires PriorityFills(makers, t, n, fills, remaining)
    ensures var w := Walk(t.side, t.limit, t.id, t.quantity, makers); fills == w.fills && remaining == w.remaining
    decreases |makers|
  {
    if fills != [] && n > 0 {
      var rest := t.(quantity := t.quantity - makers[0].remaining);
      PriorityTail(makers, t, n, fills, remaining);
      PriorityFillsUnique(makers[1..], rest, n - 1, fills[1..], remaining);
      assert fills == [fills[0]] + fills[1..];
    } else if fills != [] {
      assert fills == [fills[0]] && fills[1..] == [];
      assert SumQuantity(fills) == fills[0].quantity;
    }
  }

  lemma {:induction false} PositiveSum(fills: seq<FillEvent>)
    requires forall k :: 0 <= k < |fills| ==> fills[k].quantity > 0
    ensures SumQuantity(fills) >= 0 && (fills != [] ==> SumQuantity(fills) > 0)
  {
    if fills != [] {
      PositiveSum(fills[1..]);
    }
  }

  /** Behind a completely filled maker the same rules hold for the rest. */
  lemma PriorityTail(makers: seq<Order>, t: Taker, n: nat, fills: seq<FillEvent>, remaining: int)
    requires forall k :: 0 <= k < |makers| ==> makers[k].remaining > 0
    requires n > 0 && PriorityFills(makers, t, n, fills, remaining)
    ensures t.quantity >= makers[0].remaining
    ensures PriorityFills(makers[1..], t.(quantity := t.quantity - makers[0].remaining), n - 1, fills[1..], remaining)
  {
    forall k | 0 <= k < |fills[1..]|
      ensures fills[1..][k].quantity > 0
    {
      assert fills[1..][k] == fills[k + 1];
    }
    PositiveSum(fills[1..]);
  }

  lemma {:induction false} WalkByPriority(t: Taker, makers: seq<Order>)
    requires forall k :: 0 <= k < |makers| ==> makers[k].remaining > 0
    ensures var w := Walk(t.side, t.limit, t.id, t.quantity, makers);
            PriorityFills(makers, t, Spent(t.side, t.limit, t.id, t.quantity, makers), w.fills, w.remaining)
    decreases |makers|
  {
    hide PriorityFills;
    if t.quantity > 0 && makers != [] && Crosses(t.side, t.limit, makers[0].request.price) {
      var traded := Min(t.quantity, makers[0].remaining);
      if traded == makers[0].remaining {
        var rest := t.(quantity := t.quantity - traded);
        var w := Walk(t.side, t.limit, t.id, rest.quantity, makers[1..]);
        WalkByPriority(rest, makers[1..]);
        PriorityCons(makers, t, Spent(t.side, t.limit, t.id, rest.quantity, makers[1..]), w.fills, w.remaining);
      } else {
        PriorityLast(makers, t);
      }
    } else {
      PriorityNone(makers, t);
    }
  }

  /** A walk that trades nothing. */
  lemma PriorityNone(makers: seq<Order>, t: Taker)
    requires t.quantity <= 0 || makers == [] || !Crosses(t.side, t.limit, makers[0].request.price)
    ensures PriorityFills(makers, t, 0, [], t.quantity)
  {
  }

  /** A partly filled maker ends a walk. */
  lemma PriorityLast(makers: seq<Order>, t: Taker)
    requires makers != [] && 0 < t.quantity < makers[0].remaining && Crosses(t.side, t.limit, makers[0].request.price)
    ensures PriorityFills(makers, t, 0, [FillEvent(makers[0].request.id, t.id, t.quantity, makers[0].request.price)], 0)
  {
    var fills := [FillEvent(makers[0].request.id, t.id, t.quantity, makers[0].request.price)];
    assert fills[1..] == [];
  }

  /** A completely filled maker in front of a walk. */
  lemma PriorityCons(makers: seq<Order>, t: Taker, n: nat, rest: seq<FillEvent>, remaining: int)
    requires makers != [] && 0 < makers[0].remaining <= t.quantity && Crosses(t.side, t.limit, makers[0].request.price)
    requires PriorityFills(makers[1..], t.(quantity := t.quantity - makers[0].remaining), n, rest, remaining)
    ensures PriorityFills(makers, t, n + 1, [FullFill(makers[0], t.id)] + rest, remaining)
  {
    var fills := [FullFill(makers[0], t.id)] + rest;
    assert fills[1..] == rest;
    forall k | 0 <= k < |fills|
      ensures k < n + 1 ==> fills[k] == FullFill(makers[k], t.id)
      ensures Crosses(t.side, t.limit, makers[k].request.price)
    {
      assert k > 0 ==> makers[1..][k - 1] == makers[k] && fills[k] == rest[k - 1];
    }
    assert n + 1 < |makers| ==> makers[n + 1] == makers[1..][n];
  }

  /** A walk trades as much as crosses, and no more than was asked for. */
  lemma {:induction false} WalkTradesFillable(side: Side, limit: int, taker: OrderId, quantity: int, makers: seq<Order>)
    requires quantity >= 0
    requires forall k :: 0 <= k < |makers| ==> makers[k].remaining > 0
    ensures Walk(side, limit, taker, quantity, makers).remaining == quantity - Min(quantity, Fillable(side, limit, makers))
    decreases |makers|
  {
    FillableNonNegative(side, limit, makers);
    if quantity > 0 && makers != [] && Crosses(side, limit, makers[0].request.price) {
      FillableNonNegative(side, limit, makers[1..]);
      if Min(quantity, makers[0].remaining) == makers[0].remaining {
        WalkTradesFillable(side, limit, taker, quantity - makers[0].remaining, makers[1..]);
      }
    }
  }

  lemma SortedSameHead(side: Side, p: seq<Order>, q: seq<Order>)
    requires Sorted(side, p) && Sorted(side, q) && p != [] && q != []
    requires p[0] in q && q[0] in p
    ensures p[0] == q[0]
  {
    var i :| 0 <= i < |q| && q[i] == p[0];
    var j :| 0 <= j < |p| && p[j] == q[0];
    assert i > 0 ==> Before(side, q[0], q[i]);
    assert j > 0 ==> Before(side, p[0], p[j]);
  }

  lemma TailMultiset<T>(p: seq<T>)
    requires p != []
    ensures multiset(p[1..]) == multiset(p) - multiset{p[0]}
  {
    assert p == [p[0]] + p[1..];
  }

  /** A strict order has only one sorted arrangement. */
  lemma {:induction false} SortedUnique(side: Side, p: seq<Order>, q: seq<Order>)
    requires Sorted(side, p) && Sorted(side, q) && multiset(p) == multiset(q)
    ensures p == q
  {
    assert |p| == |multiset(p)| == |multiset(q)| == |q|;
    if p != [] {
      assert p[0] in multiset(q) && q[0] in multiset(p);
      SortedSameHead(side, p, q);
      TailMultiset(p);
      TailMultiset(q);
      SortedUnique(side, p[1..], q[1..]);
    }
  }

  /**
   Price-time priority: whatever way the opposite orders are listed in strict
   (better price, earlier arrival) order, the placement's fills are those of
   the greedy walk over that list.
   */
  lemma PriceTimePriority(b: Book, req: OrderRequest, ranked: seq<Order>)
    requires BookInv(b) && !PostOnlyBlocked(b, req) && !FokBlocked(b, req)
    requires Sorted(Opposite(req.side), ranked) && multiset(ranked) == multiset(Queue(b, Opposite(req.side)))
    ensures Place(b, req).result.fills == Walk(req.side, req.price, req.id, req.quantity, ranked).fills
    ensures PriorityFills(ranked, TakerOf(req), Spent(req.side, req.price, req.id, req.quantity, ranked),
                          Place(b, req).result.fills, Matched(b, req).remaining)
  {
    hide Walk, Insert, Fillable, Spent, PriorityFills;
    var makers := Queue(b, Opposite(req.side));
    assert forall k :: 0 <= k < |makers| ==> OrderOk(Opposite(req.side), makers[k], b.nextSequence);
    SortedUnique(Opposite(req.side), ranked, makers);
    WalkByPriority(TakerOf(req), makers);
  }

  // ----- fill-or-kill and post-only -----

  /**
   A fill-or-kill order is accepted exactly when enough quantity crosses; then
   it fills completely, and otherwise nothing at all happens.
   */
  lemma FokAllOrNothing(b: Book, req: OrderRequest)
    requires BookInv(b) && req.tif.Fok?
    ensures var p := Place(b, req);
            var enough := Fillable(req.side, req.price, Queue(b, Opposite(req.side))) >= req.quantity;
            && (p.result.accepted <==> !PostOnlyBlocked(b, req) && enough)
            && (p.result.accepted ==> p.result.fullyFilled && SumQuantity(p.result.fills) == Max(req.quantity, 0))
            && (!p.result.accepted ==> p.book == b && p.result.fills == [])
            && !p.result.resting
  {
    var makers := Queue(b, Opposite(req.side));
    assert forall k :: 0 <= k < |makers| ==> OrderOk(Opposite(req.side), makers[k], b.nextSequence);
    WalkByPriority(TakerOf(req), makers);
    WalkShape(req.side, req.price, req.id, req.quantity, makers);
    if req.quantity >= 0 {
      WalkTradesFillable(req.side, req.price, req.id, req.quantity, makers);
    }
  }

  /** A post-only order never trades, although only the best opposite price was compared with it. */
  lemma PostOnlyNeverTrades(b: Book, req: OrderRequest)
    requires req.flags.postOnly
    ensures Place(b, req).result.fills == []
  {
    if !PostOnlyBlocked(b, req) && !FokBlocked(b, req) {
      assert Matched(b, req) == WalkResult([], Queue(b, Opposite(req.side)), req.quantity);
    }
  }

  // ----- which makers an order reaches and which outlast it, told before it is matched -----

  /** Maker k is within the limit, and the makers before it do not use up the quantity. */
  predicate Reaches(t: Taker, makers: seq<Order>, k: nat)
    requires k < |makers|
  {
    Crosses(t.side, t.limit, makers[k].request.price) && SumRemaining(makers[..k]) < t.quantity
  }

  /** Maker k is beyond the limit, or the quantity is used up before it is. */
  predicate Outlasts(t: Taker, makers: seq<Order>, k: nat)
    requires k < |makers|
  {
    !Crosses(t.side, t.limit, makers[k].request.price) || t.quantity < SumRemaining(makers[..k + 1])
  }

  /** Beyond the first maker outside the limit all are outside. */
  ghost predicate CrossingFirst(t: Taker, makers: seq<Order>) {
    forall i, j :: 0 <= i < j < |makers| && Crosses(t.side, t.limit, makers[j].request.price) ==>
      Crosses(t.side, t.limit, makers[i].request.price)
  }

  lemma {:induction false} SumNonNegative(q: seq<Order>)
    requires forall k :: 0 <= k < |q| ==> q[k].remaining > 0
    ensures SumRemaining(q) >= 0
  {
    if q != [] {
      SumNonNegative(q[1..]);
    }
  }

  lemma HeadSum(makers: seq<Order>, k: nat)
    requires 0 < k <= |makers| && forall i :: 0 <= i < |makers| ==> makers[i].remaining > 0
    ensures SumRemaining(makers[..k]) == makers[0].remaining + SumRemaining(makers[1..][..k - 1])
    ensures SumRemaining(makers[1..][..k - 1]) >= 0
  {
    assert makers[..k][1..] == makers[1..][..k - 1];
    SumNonNegative(makers[1..][..k - 1]);
  }

  /** A maker trades exactly when the order reaches it, and is used up exactly when it does not outlast the order. */
  lemma {:induction false} MakerFate(t: Taker, makers: seq<Order>, k: nat)
    requires k < |makers| && CrossingFirst(t, makers)
    requires forall i :: 0 <= i < |makers| ==> makers[i].remaining > 0
    ensures k < |Walk(t.side, t.limit, t.id, t.quantity, makers).fills| <==> Reaches(t, makers, k)
    ensures k < Spent(t.side, t.limit, t.id, t.quantity, makers) <==> !Outlasts(t, makers, k)
    decreases |makers|
  {
    HeadSum(makers, k + 1);
    if k > 0 {
      HeadSum(makers, k);
    }
    if t.quantity > 0 && Crosses(t.side, t.limit, makers[0].request.price) && makers[0].remaining <= t.quantity && k > 0 {
      var rest := t.(quantity := t.quantity - makers[0].remaining);
      assert makers[1..][k - 1] == makers[k];
      MakerFate(rest, makers[1..], k - 1);
    }
  }

  lemma MakersCross(b: Book, req: OrderRequest)
    requires BookInv(b)
    ensures var makers := Queue(b, Opposite(req.side));
            && CrossingFirst(TakerOf(req), makers)
            && forall k :: 0 <= k < |makers| ==> OrderOk(Opposite(req.side), makers[k], b.nextSequence)
  {
    var side := Opposite(req.side);
    var makers := Queue(b, side);
    assert QueueInv(side, makers, b.nextSequence);
    forall i, j | 0 <= i < j < |makers| && Crosses(req.side, req.price, makers[j].request.price)
      ensures Crosses(req.side, req.price, makers[i].request.price)
    {
      assert Before(side, makers[i], makers[j]);
    }
  }

  /** The id rests where this order does not take it out: on its own side, or with a maker that outlasts it. */
  predicate IdOutlasts(b: Book, req: OrderRequest) {
    var makers := Queue(b, Opposite(req.side));
    || HasId(Queue(b, req.side), req.id)
    || (HasId(makers, req.id) && Outlasts(TakerOf(req), makers, IndexOf(makers, req.id)))
  }

  /** Whether an id is still in the book after matching can be told before. */
  lemma IdOutlastsExact(b: Book, req: OrderRequest)
    requires BookInv(b)
    ensures Contains(AfterMatch(b, req), req.id) <==> IdOutlasts(b, req)
  {
    hide Walk, BookInv, Outlasts, CrossingFirst;
    var side := Opposite(req.side);
    var makers, left := Queue(b, side), Queue(AfterMatch(b, req), side);
    var n := Spent(req.side, req.price, req.id, req.quantity, makers);
    MakersCross(b, req);
    WalkShape(req.side, req.price, req.id, req.quantity, makers);
    assert IsRemainder(makers, n, left);
    assert QueueInv(side, makers, b.nextSequence) by { SideInv(b, side); }
    RemainderKeeps(side, makers, n, left, b.nextSequence);
    if HasId(makers, req.id) {
      MakerFate(TakerOf(req), makers, IndexOf(makers, req.id));
      RemainderHasId(makers, n, left, req.id);
    }
    if HasId(left, req.id) {
      RemainderNoNewId(makers, n, left, req.id);
    }
  }

  lemma RemainderNoNewId(makers: seq<Order>, n: nat, left: seq<Order>, id: OrderId)
    requires |left| + n == |makers| && HasId(left, id)
    requires forall k :: 0 <= k < |left| ==> left[k].request == makers[n + k].request
    ensures HasId(makers, id)
  {
    var k :| 0 <= k < |left| && left[k].request.id == id;
    assert makers[n + k].request.id == id;
  }

  lemma SideInv(b: Book, side: Side)
    requires BookInv(b)
    ensures QueueInv(side, Queue(b, side), b.nextSequence)
  {
  }

  lemma RemainderHasId(makers: seq<Order>, n: nat, left: seq<Order>, id: OrderId)
    requires DistinctIds(makers) && HasId(makers, id)
    requires n <= |makers| && |left| == |makers| - n
    requires forall k :: 0 <= k < |left| ==> left[k].request == makers[n + k].request
    ensures HasId(left, id) <==> n <= IndexOf(makers, id)
  {
    var i := IndexOf(makers, id);
    if n <= i {
      assert left[i - n].request == makers[n + (i - n)].request;
    }
  }

  // ----- rejection -----

  /** The id rests on the order's own side, or on the other side beyond the limit. */
  predicate RestsBeyondReach(b: Book, req: OrderRequest) {
    var makers := Queue(b, Opposite(req.side));
    || HasId(Queue(b, req.side), req.id)
    || (HasId(makers, req.id) && !Crosses(req.side, req.price, makers[IndexOf(makers, req.id)].request.price))
  }

  /** An order that wants to rest what it cannot trade, under an id that will still be taken. */
  predicate DuplicateLeftover(b: Book, req: OrderRequest) {
    && !PostOnlyBlocked(b, req) && !req.tif.Ioc? && !req.tif.Fok?
    && req.quantity > 0 && Fillable(req.side, req.price, Queue(b, Opposite(req.side))) < req.quantity
    && RestsBeyondReach(b, req)
  }

  /** Quantity is left over exactly when less than that much crosses. */
  lemma LeftoverExact(b: Book, req: OrderRequest)
    requires BookInv(b)
    ensures Matched(b, req).remaining > 0 <==>
            req.quantity > 0 && Fillable(req.side, req.price, Queue(b, Opposite(req.side))) < req.quantity
  {
    var makers := Queue(b, Opposite(req.side));
    MakersCross(b, req);
    hide Walk, Fillable, BookInv, CrossingFirst;
    WalkShape(req.side, req.price, req.id, req.quantity, makers);
    if req.quantity >= 0 {
      WalkTradesFillable(req.side, req.price, req.id, req.quantity, makers);
    }
  }

  /** With quantity left over, exactly the makers beyond the limit outlast the order. */
  lemma LeftoverOutlasts(b: Book, req: OrderRequest)
    requires BookInv(b) && Matched(b, req).remaining > 0
    ensures IdOutlasts(b, req) <==> RestsBeyondReach(b, req)
  {
    var t, makers := TakerOf(req), Queue(b, Opposite(req.side));
    MakersCross(b, req);
    hide Walk, Outlasts, BookInv, CrossingFirst;
    WalkByPriority(t, makers);
    WalkShape(req.side, req.price, req.id, req.quantity, makers);
    if HasId(makers, req.id) {
      var k := IndexOf(makers, req.id);
      MakerFate(t, makers, k);
      var n := Spent(t.side, t.limit, t.id, t.quantity, makers);
      if n <= k {
        BeyondLimit(t, makers, n, k);
      }
    }
  }

  lemma BeyondLimit(t: Taker, makers: seq<Order>, n: nat, k: nat)
    requires n <= k < |makers| && CrossingFirst(t, makers) && !Crosses(t.side, t.limit, makers[n].request.price)
    ensures !Crosses(t.side, t.limit, makers[k].request.price)
  {
  }

  /** Matching brings no new id into the book. */
  lemma MatchAddsNoId(b: Book, req: OrderRequest, id: OrderId)
    requires BookInv(b) && Contains(AfterMatch(b, req), id)
    ensures Contains(b, id)
  {
    MatchKeeps(b, req);
    hide Walk, BookInv;
    var side := Opposite(req.side);
    var left := Queue(AfterMatch(b, req), side);
    if HasId(left, id) {
      var k :| 0 <= k < |left| && left[k].request.id == id;
      assert HasRequest(Queue(b, side), left[k].request);
      assert HasId(Queue(b, side), id);
    }
  }

  /** The three ways to be rejected, each a check on the book before the call, and what each leaves behind. */
  lemma RejectionExact(b: Book, req: OrderRequest)
    requires BookInv(b)
    ensures !Place(b, req).result.accepted <==> PostOnlyBlocked(b, req) || FokBlocked(b, req) || DuplicateLeftover(b, req)
    ensures DuplicateLeftover(b, req) ==>
              Place(b, req) == Placement(AfterMatch(b, req), Rejected(REJECT_DUPLICATE_ORDER_ID, Matched(b, req).fills))
    ensures PostOnlyBlocked(b, req) || FokBlocked(b, req) ==> Place(b, req).book == b && Place(b, req).result.fills == []
  {
    LeftoverExact(b, req);
    IdOutlastsExact(b, req);
    if Matched(b, req).remaining > 0 {
      LeftoverOutlasts(b, req);
    }
    hide Walk, Insert, Fillable, AfterMatch, IdOutlasts, RestsBeyondReach;
  }

  ghost predicate SameQueues(b: Book, b': Book) {
    b.bids == b'.bids && b.asks == b'.asks
  }

  /** Some quantity crosses exactly when the order trades. */
  lemma TradesExact(b: Book, req: OrderRequest)
    requires BookInv(b) && req.quantity > 0
    ensures Matched(b, req).fills == [] <==> Fillable(req.side, req.price, Queue(b, Opposite(req.side))) == 0
    ensures (Matched(b, req).fills == [] <==> Matched(b, req).left == Queue(b, Opposite(req.side)))
  {
    var makers := Queue(b, Opposite(req.side));
    MakersCross(b, req);
    if makers != [] && Crosses(req.side, req.price, makers[0].request.price) {
      FillableNonNegative(req.side, req.price, makers[1..]);
      WalkTradesFillable(req.side, req.price, req.id, req.quantity, makers);
      WalkByPriority(TakerOf(req), makers);
      LeftDiffers(req.side, req.price, req.id, req.quantity, makers);
    }
  }

  lemma LeftDiffers(side: Side, limit: int, taker: OrderId, quantity: int, makers: seq<Order>)
    requires quantity > 0 && makers != [] && makers[0].remaining > 0 && Crosses(side, limit, makers[0].request.price)
    requires forall k :: 0 <= k < |makers| ==> makers[k].remaining > 0
    ensures Walk(side, limit, taker, quantity, makers).left != makers
  {
    WalkShape(side, limit, taker, quantity, makers);
  }

  /**
   A rejected placement leaves both queues as they were exactly when it traded
   nothing, and it trades exactly when it is a duplicate leftover and some
   quantity crosses.
   */
  lemma RejectionUnchangedIff(b: Book, req: OrderRequest)
    requires BookInv(b) && !Place(b, req).result.accepted
    ensures SameQueues(Place(b, req).book, b) <==> Place(b, req).result.fills == []
    ensures Place(b, req).result.fills != [] <==>
            DuplicateLeftover(b, req) && Fillable(req.side, req.price, Queue(b, Opposite(req.side))) > 0
    ensures DuplicateLeftover(b, req) ==> Contains(b, req.id)
  {
    RejectionExact(b, req);
    if DuplicateLeftover(b, req) {
      TradesExact(b, req);
      MakersCross(b, req);
      FillableNonNegative(req.side, req.price, Queue(b, Opposite(req.side)));
    }
    hide Walk, Insert, Fillable, Place, IdOutlasts, BookInv;
  }

  /** Under an id that does not rest, a rejected placement has traded nothing and changed nothing. */
  lemma FreshRejectionTradesNothing(b: Book, req: OrderRequest)
    requires BookInv(b) && !Contains(b, req.id) && !Place(b, req).result.accepted
    ensures Place(b, req).result.fills == [] && Place(b, req).book == b
  {
    RejectionUnchangedIff(b, req);
    RejectionExact(b, req);
  }

  /** A duplicate id can be rejected and yet have traded. */
  lemma DuplicateTradesYetRejected() returns (b: Book, req: OrderRequest)
    ensures BookInv(b) && Contains(b, req.id)
    ensures var p := Place(b, req);
            !p.result.accepted && p.result.rejectCode == REJECT_DUPLICATE_ORDER_ID && SumQuantity(p.result.fills) == 1
  {
    var flags := Flags(false, false, false, false);
    var bid := OrderRequest(OrderId(1, 1, 1), 7, Buy, 1, 10, 0, Gtc, flags);
    var ask := OrderRequest(OrderId(1, 1, 2), 8, Sell, 1, 20, 0, Gtc, flags);
    b := Book([Order(bid, 1, 1, 1, 1)], [Order(ask, 1, 1, 1, 2)], 3);
    req := OrderRequest(OrderId(1, 1, 1), 9, Buy, 5, 20, 0, Gtc, flags);
    var w := Matched(b, req);
    assert b.asks[1..] == [] && Walk(Buy, 20, req.id, 4, []) == WalkResult([], [], 4);
    assert w == Prepend([FillEvent(ask.id, req.id, 1, 20)], Walk(Buy, 20, req.id, 4, b.asks[1..]));
    assert w.fills == [FillEvent(ask.id, req.id, 1, 20)] && w.left == [] && w.remaining == 4;
    assert AfterMatch(b, req).bids[0].request.id == req.id;
    assert w.fills[1..] == [];
  }

  // ----- cancel and replace -----

  /** What a placement that rests does to the book. */
  lemma PlaceRests(b: Book, req: OrderRequest)
    requires Place(b, req).result.resting
    ensures var o := Refreshed(Unmatched(b, req));
            && Place(b, req).book == WithQueue(AfterMatch(b, req), req.side, Insert(req.side, Queue(b, req.side), o))
            && Place(b, req).result.fills == Matched(b, req).fills
            && o.request == req && o.fifoSeq == b.nextSequence
  {
    hide Walk, Insert, Fillable;
  }

  /** Cancelling an order that has just come to rest without trading restores both queues. */
  lemma CancelUndoesRest(b: Book, req: OrderRequest)
    requires BookInv(b) && !Contains(b, req.id)
    requires Place(b, req).result.resting && Place(b, req).result.fills == []
    ensures Contains(Place(b, req).book, req.id)
    ensures RemoveId(Place(b, req).book, req.id) == b.(nextSequence := b.nextSequence + 1)
  {
    hide Insert, Walk, Place, Contains, RemoveId, Unmatched, BookInv, Lookup;
    var mine, theirs := Queue(b, req.side), Queue(b, Opposite(req.side));
    PlaceRests(b, req);
    NoFillsNoChange(req.side, req.price, req.id, req.quantity, theirs);
    var o := Refreshed(Unmatched(b, req));
    var p := InsertionPoint(req.side, mine, o);
    InsertShape(req.side, mine, o);
    InsertedThenRemoved(mine, p, o);
    PlaceKeeps(b, req);
    RemovalById(Place(b, req).book, req.side, o, p, mine);
  }

  lemma InsertedThenRemoved<T>(s: seq<T>, i: nat, x: T)
    requires i <= |s|
    ensures var r := Inserted(s, i, x); r[i] == x && r[..i] + r[i + 1..] == s
  {
    var r := Inserted(s, i, x);
    assert r[..i] == s[..i] && r[i + 1..] == s[i..];
  }

  lemma NoFillsNoChange(side: Side, limit: int, taker: OrderId, quantity: int, makers: seq<Order>)
    ensures Walk(side, limit, taker, quantity, makers).fills == [] ==>
              Walk(side, limit, taker, quantity, makers) == WalkResult([], makers, quantity)
  {
  }

  lemma InsertGoesLast(side: Side, q: seq<Order>, rested: Order, o: Order)
    requires QueueInv(side, q, rested.fifoSeq) && o in q && o.request.price == rested.request.price
    ensures rested in Insert(side, q, rested) && o in Insert(side, q, rested) && Before(side, o, rested)
  {
    hide Insert, Inserted;
    var k :| 0 <= k < |q| && q[k] == o;
    assert OrderOk(side, q[k], rested.fifoSeq);
    var p := InsertionPoint(side, q, rested);
    InsertShape(side, q, rested);
    InsertionOrder(side, q, rested, k);
    InsertedAt(q, p, rested, k);
    InsertedAt(q, p, rested, p);
  }

  /** Every resting order of the same price stands before an order that has just come to rest. */
  lemma RestsAtTail(b: Book, req: OrderRequest, o: Order)
    requires BookInv(b) && Place(b, req).result.resting
    requires o in Queue(b, req.side) && o.request.price == req.price
    ensures var rested := Refreshed(Unmatched(b, req));
            && rested in Queue(Place(b, req).book, req.side)
            && o in Queue(Place(b, req).book, req.side)
            && Before(req.side, o, rested)
  {
    hide Insert, Walk, Place, Unmatched;
    PlaceRests(b, req);
    InsertGoesLast(req.side, Queue(b, req.side), Refreshed(Unmatched(b, req)), o);
  }

  /** Taking an order off its own side leaves what its replacement could trade with as it was. */
  lemma RemovalKeepsOpposite(b: Book, id: OrderId)
    requires BookInv(b) && Contains(b, id)
    ensures var side := Lookup(b, id).request.side;
            Queue(RemoveId(b, id), Opposite(side)) == Queue(b, Opposite(side))
  {
    if HasId(b.bids, id) {
      assert OrderOk(Buy, b.bids[IndexOf(b.bids, id)], b.nextSequence);
    } else {
      assert OrderOk(Sell, b.asks[IndexOf(b.asks, id)], b.nextSequence);
    }
  }

  lemma NoDuplicate(b: Book, req: OrderRequest)
    requires !Contains(b, req.id)
    ensures !DuplicateLeftover(b, req)
  {
    hide Fillable, PostOnlyBlocked;
  }

  /**
   A replace of a resting order is a cancel followed by a placement that keeps
   the account and the side.  The old order is gone whatever becomes of the new one.
   */
  lemma ReplaceIsCancelThenPlace(e: Engine, req: ReplaceRequest)
    requires req.id.market in e && BookInv(e[req.id.market]) && Contains(e[req.id.market], req.id)
    ensures var market := req.id.market;
            var resting := Lookup(e[market], req.id);
            var cancelled := Cancel(e, req.id).0;
            var replacement := ReplacementRequest(resting, req);
            var p := Place(cancelled[market], replacement);
            && Cancel(e, req.id).1.cancelled && !Contains(cancelled[market], req.id)
            && replacement.account == resting.request.account && replacement.side == resting.request.side
            && Replace(e, req) == (cancelled[market := p.book],
                                   ReplaceResult(p.result.accepted, p.result.resting, p.result.rejectCode, p.result.fills))
            && (Admissible(replacement) ==> Submit(cancelled, replacement) == (cancelled[market := p.book], p.result))
            && (!p.result.accepted <==> PostOnlyBlocked(e[market], replacement) || FokBlocked(e[market], replacement))
            && (!p.result.accepted ==> Replace(e, req).0 == cancelled && p.result.fills == [])
  {
    var market := req.id.market;
    RemoveIdKeeps(e[market], req.id);
    var cancelled := Cancel(e, req.id).0;
    var replacement := ReplacementRequest(Lookup(e[market], req.id), req);
    assert e[market := cancelled[market]] == cancelled;
    var p := Place(cancelled[market], replacement);
    assert cancelled[market := p.book] == e[market := p.book];
    RemovalKeepsOpposite(e[market], req.id);
    RejectionExact(cancelled[market], replacement);
    NoDuplicate(cancelled[market], replacement);
    hide Place, BookInv, Fillable, Contains, Lookup, RemoveId;
    if !Place(cancelled[market], replacement).result.accepted {
      FreshRejectionTradesNothing(cancelled[market], replacement);
      assert cancelled[market := cancelled[market]] == cancelled;
    }
  }

  /** Which replaces are rejected, and that a resting order is lost by exactly those of it, told before the call. */
  lemma ReplaceRejectionExact(e: Engine, req: ReplaceRequest)
    requires req.id.market in e ==> BookInv(e[req.id.market])
    ensures var rests := req.id.market in e && Contains(e[req.id.market], req.id);
            && (!Replace(e, req).1.accepted <==>
                  rests ==>
                    var b := e[req.id.market];
                    var replacement := ReplacementRequest(Lookup(b, req.id), req);
                    PostOnlyBlocked(b, replacement) || FokBlocked(b, replacement))
            && (!Replace(e, req).1.accepted ==>
                  && Replace(e, req).1.fills == []
                  && Replace(e, req).0 == (if rests then Cancel(e, req.id).0 else e)
                  && (Replace(e, req).0 == e <==> !rests))
  {
    hide Place, BookInv, RemoveId, Contains, Lookup, Fillable;
    var market := req.id.market;
    if market in e && Contains(e[market], req.id) {
      RemoveIdKeeps(e[market], req.id);
      ReplaceIsCancelThenPlace(e, req);
    }
  }

  /** A resting bid is replaced, post-only, at the price of the ask: the answer is a rejection, and the bid is gone. */
  lemma RejectedReplaceLosesOrder() returns (e: Engine, req: ReplaceRequest)
    ensures req.id.market in e && BookInv(e[req.id.market]) && Contains(e[req.id.market], req.id)
    ensures !Replace(e, req).1.accepted && Replace(e, req).1.rejectCode == REJECT_POST_ONLY_WOULD_CROSS
    ensures !Contains(Replace(e, req).0[req.id.market], req.id)
  {
    var plain := Flags(false, false, false, false);
    var bid := OrderRequest(OrderId(1, 1, 1), 7, Buy, 1, 10, 0, Gtc, plain);
    var ask := OrderRequest(OrderId(1, 1, 2), 8, Sell, 1, 20, 0, Gtc, plain);
    var b := Book([Order(bid, 1, 1, 1, 1)], [Order(ask, 1, 1, 1, 2)], 3);
    e, req := map[1 := b], ReplaceRequest(bid.id, 1, 20, 0, Gtc, plain.(postOnly := true));
    assert b.bids[0].request.id == req.id;
    assert BookInv(b);
    ReplaceIsCancelThenPlace(e, req);
    ReplaceRejectionExact(e, req);
    RemovalKeepsOpposite(b, req.id);
  }
}
