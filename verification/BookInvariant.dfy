/** What every reachable book satisfies, and why every operation keeps it. */
module BookInvariant {
  import opened Common
  import opened OrderBook
  import opened Ladder

  /** Strict price-time priority among the resting orders of one side. */
  predicate Before(side: Side, a: Order, b: Order) {
    || Better(side, a.request.price, b.request.price)
    || (a.request.price == b.request.price && a.fifoSeq < b.fifoSeq)
  }

  ghost predicate Sorted(side: Side, q: seq<Order>) {
    forall i, j :: 0 <= i < j < |q| ==> Before(side, q[i], q[j])
  }

  predicate OrderOk(side: Side, o: Order, nextSequence: nat) {
    && o.request.side == side
    && o.remaining > 0
    && o.displayRemaining == Shown(o.request.flags, o.displaySize, o.remaining)
    && 0 <= o.displayRemaining <= o.remaining
    && o.fifoSeq < nextSequence
  }

  ghost predicate AllOk(side: Side, q: seq<Order>, nextSequence: nat) {
    forall i :: 0 <= i < |q| ==> OrderOk(side, q[i], nextSequence)
  }

  ghost predicate DistinctIds(q: seq<Order>) {
    forall i, j :: 0 <= i < j < |q| ==> q[i].request.id != q[j].request.id
  }

  ghost predicate QueueInv(side: Side, q: seq<Order>, nextSequence: nat) {
    Sorted(side, q) && AllOk(side, q, nextSequence) && DistinctIds(q)
  }

  /** No id rests on both sides. */
  ghost predicate NoSharedId(p: seq<Order>, q: seq<Order>) {
    forall i, j :: 0 <= i < |p| && 0 <= j < |q| ==> p[i].request.id != q[j].request.id
  }

  ghost predicate Uncrossed(bids: seq<Order>, asks: seq<Order>) {
    forall i, j :: 0 <= i < |bids| && 0 <= j < |asks| ==> bids[i].request.price < asks[j].request.price
  }

  ghost predicate BookInv(b: Book) {
    && QueueInv(Buy, b.bids, b.nextSequence)
    && QueueInv(Sell, b.asks, b.nextSequence)
    && NoSharedId(b.bids, b.asks)
    && Uncrossed(b.bids, b.asks)
  }

  lemma EmptyInv()
    ensures BookInv(EMPTY_BOOK)
  {
  }

  // ----- the shape of a walk -----

  /** How many makers the walk consumes completely. */
  ghost function Spent(side: Side, limit: int, taker: OrderId, quantity: int, makers: seq<Order>): (n: nat)
    ensures n <= |makers|
    decreases |makers|
  {
    if quantity <= 0 || makers == [] || !Crosses(side, limit, makers[0].request.price) then 0
    else if Min(quantity, makers[0].remaining) == makers[0].remaining then
      1 + Spent(side, limit, taker, quantity - makers[0].remaining, makers[1..])
    else 0
  }

  /** b is a, possibly with part of its quantity gone and its display refreshed. */
  predicate Worn(a: Order, b: Order) {
    b == a || (0 < b.remaining < a.remaining && b == AfterFill(a, a.remaining - b.remaining))
  }

  /** `left` is `makers` without its first n, where the new head may have lost part of its quantity. */
  ghost predicate IsRemainder(makers: seq<Order>, n: nat, left: seq<Order>) {
    && n <= |makers| && |left| == |makers| - n
    && (left != [] ==> Worn(makers[n], left[0]) && left[1..] == makers[n + 1..])
  }

  lemma IsRemainderCons(makers: seq<Order>, n: nat, left: seq<Order>)
    requires makers != [] && IsRemainder(makers[1..], n, left)
    ensures IsRemainder(makers, n + 1, left)
  {
    if left != [] {
      assert makers[1..][n + 1..] == makers[n + 2..];
    }
  }

  lemma {:induction false} WalkShape(side: Side, limit: int, taker: OrderId, quantity: int, makers: seq<Order>)
    requires forall k :: 0 <= k < |makers| ==> makers[k].remaining > 0
    ensures var w := Walk(side, limit, taker, quantity, makers);
            var n := Spent(side, limit, taker, quantity, makers);
            && IsRemainder(makers, n, w.left)
            && (w.remaining > 0 ==> n == |makers| || !Crosses(side, limit, makers[n].request.price))
            && (quantity >= 0 ==> w.remaining >= 0)
            && (quantity <= 0 ==> w.remaining == quantity)
    decreases |makers|
  {
    var w := Walk(side, limit, taker, quantity, makers);
    var n := Spent(side, limit, taker, quantity, makers);
    if quantity <= 0 || makers == [] || !Crosses(side, limit, makers[0].request.price) {
      assert makers[..0] == [];
    } else {
      var maker := makers[0];
      var traded := Min(quantity, maker.remaining);
      if traded == maker.remaining {
        WalkShape(side, limit, taker, quantity - traded, makers[1..]);
        IsRemainderCons(makers, n - 1, w.left);
      } else {
        assert w.left[0] == AfterFill(maker, traded) && w.left[1..] == makers[1..];
      }
    }
  }

  // ----- walking, inserting and removing keep a queue in order -----

  lemma RemainderKeeps(side: Side, makers: seq<Order>, n: nat, left: seq<Order>, nextSequence: nat)
    requires QueueInv(side, makers, nextSequence) && IsRemainder(makers, n, left)
    ensures QueueInv(side, left, nextSequence)
    ensures forall k :: 0 <= k < |left| ==> left[k].request == makers[n + k].request && left[k].fifoSeq == makers[n + k].fifoSeq
  {
    forall k | 0 <= k < |left|
      ensures left[k].request == makers[n + k].request && left[k].fifoSeq == makers[n + k].fifoSeq
      ensures OrderOk(side, left[k], nextSequence)
    {
      assert OrderOk(side, makers[n + k], nextSequence);
      if k > 0 {
        assert left[1..][k - 1] == makers[n + 1..][k - 1];
      }
    }
    forall i, j | 0 <= i < j < |left|
      ensures Before(side, left[i], left[j]) && left[i].request.id != left[j].request.id
    {
      assert Before(side, makers[n + i], makers[n + j]);
    }
  }

  /** The place where Insert puts an order. */
  ghost function InsertionPoint(side: Side, q: seq<Order>, o: Order): (p: nat)
    ensures p <= |q|
    ensures forall k :: 0 <= k < p ==> !Better(side, o.request.price, q[k].request.price)
    ensures p < |q| ==> Better(side, o.request.price, q[p].request.price)
  {
    if q == [] || Better(side, o.request.price, q[0].request.price) then 0
    else 1 + InsertionPoint(side, q[1..], o)
  }

  lemma {:induction false} InsertShape(side: Side, q: seq<Order>, o: Order)
    ensures Insert(side, q, o) == Inserted(q, InsertionPoint(side, q, o), o)
  {
    var p := InsertionPoint(side, q, o);
    if p > 0 {
      InsertShape(side, q[1..], o);
      assert q[..p] == [q[0]] + q[1..][..p - 1];
      assert q[p..] == q[1..][p - 1..];
    } else if q != [] {
      assert q[..0] == [] && q[0..] == q;
    }
  }

  /** Every order before the insertion point has priority over o, and o over every order from it on. */
  lemma InsertionOrder(side: Side, q: seq<Order>, o: Order, k: nat)
    requires QueueInv(side, q, o.fifoSeq) && k < |q|
    ensures if k < InsertionPoint(side, q, o) then Before(side, q[k], o) else Before(side, o, q[k])
  {
    var p := InsertionPoint(side, q, o);
    assert OrderOk(side, q[k], o.fifoSeq);
    if p < k {
      assert Before(side, q[p], q[k]);
    }
  }

  lemma InsertKeeps(side: Side, q: seq<Order>, o: Order)
    requires QueueInv(side, q, o.fifoSeq) && OrderOk(side, o, o.fifoSeq + 1) && !HasId(q, o.request.id)
    ensures QueueInv(side, Insert(side, q, o), o.fifoSeq + 1)
    ensures forall x :: x in Insert(side, q, o) ==> x == o || x in q
  {
    hide Insert, Better, Inserted;
    InsertShape(side, q, o);
    var p := InsertionPoint(side, q, o);
    var r := Inserted(q, p, o);
    forall i | 0 <= i < |r|
      ensures OrderOk(side, r[i], o.fifoSeq + 1) && (r[i] == o || r[i] in q)
    {
      InsertedAt(q, p, o, i);
      assert i != p ==> OrderOk(side, q[if i < p then i else i - 1], o.fifoSeq);
    }
    forall i, j | 0 <= i < j < |r|
      ensures Before(side, r[i], r[j]) && r[i].request.id != r[j].request.id
    {
      InsertedAt(q, p, o, i);
      InsertedAt(q, p, o, j);
      if i == p {
        InsertionOrder(side, q, o, j - 1);
      } else if j == p {
        InsertionOrder(side, q, o, i);
      }
    }
  }

  lemma RemoveKeeps(side: Side, q: seq<Order>, p: nat, nextSequence: nat)
    requires QueueInv(side, q, nextSequence) && p < |q|
    ensures QueueInv(side, q[..p] + q[p + 1..], nextSequence)
  {
    var r := q[..p] + q[p + 1..];
    assert forall i :: 0 <= i < |r| ==> r[i] == q[if i < p then i else i + 1];
  }

  lemma LaterSequence(side: Side, q: seq<Order>, m: nat, n: nat)
    requires QueueInv(side, q, m) && m <= n
    ensures QueueInv(side, q, n)
  {
    forall i | 0 <= i < |q|
      ensures OrderOk(side, q[i], n)
    {
      assert OrderOk(side, q[i], m);
    }
  }

  ghost predicate HasRequest(p: seq<Order>, request: OrderRequest) {
    exists j :: 0 <= j < |p| && p[j].request == request
  }

  /** All the requests of q appear in p. */
  ghost predicate FromRequests(q: seq<Order>, p: seq<Order>) {
    forall i :: 0 <= i < |q| ==> HasRequest(p, q[i].request)
  }

  lemma SharedIdFrom(p: seq<Order>, p': seq<Order>, q: seq<Order>)
    requires FromRequests(p', p)
    ensures forall i :: 0 <= i < |p'| ==> HasRequest(p, p'[i].request)
    ensures NoSharedId(p, q) ==> NoSharedId(p', q)
    ensures NoSharedId(q, p) ==> NoSharedId(q, p')
    ensures Uncrossed(p, q) ==> Uncrossed(p', q)
    ensures Uncrossed(q, p) ==> Uncrossed(q, p')
  {
  }

  /** Replacing one side by part of itself keeps the invariant. */
  lemma ShrinkKeeps(b: Book, side: Side, q: seq<Order>, nextSequence: nat)
    requires BookInv(b) && b.nextSequence <= nextSequence
    requires QueueInv(side, q, b.nextSequence) && FromRequests(q, Queue(b, side))
    ensures BookInv(WithQueue(b, side, q).(nextSequence := nextSequence))
  {
    LaterSequence(side, q, b.nextSequence, nextSequence);
    LaterSequence(Buy, b.bids, b.nextSequence, nextSequence);
    LaterSequence(Sell, b.asks, b.nextSequence, nextSequence);
    SharedIdFrom(Queue(b, side), q, Queue(b, Opposite(side)));
  }

  lemma MatchKeeps(b: Book, req: OrderRequest)
    requires BookInv(b)
    ensures BookInv(AfterMatch(b, req))
    ensures FromRequests(Queue(AfterMatch(b, req), Opposite(req.side)), Queue(b, Opposite(req.side)))
  {
    var side := Opposite(req.side);
    var makers := Queue(b, side);
    var w := Matched(b, req);
    var n := Spent(req.side, req.price, req.id, req.quantity, makers);
    assert forall k :: 0 <= k < |makers| ==> OrderOk(side, makers[k], b.nextSequence);
    WalkShape(req.side, req.price, req.id, req.quantity, makers);
    RemainderKeeps(side, makers, n, w.left, b.nextSequence);
    forall k | 0 <= k < |w.left|
      ensures HasRequest(makers, w.left[k].request)
    {
      assert makers[n + k].request == w.left[k].request;
    }
    ShrinkKeeps(b, side, w.left, b.nextSequence + 1);
  }

  /** What is left of the taker does not cross what is left of the makers. */
  lemma LeftoverUncrossed(b: Book, req: OrderRequest)
    requires BookInv(b) && Matched(b, req).remaining > 0
    ensures forall k :: 0 <= k < |Matched(b, req).left| ==> !Crosses(req.side, req.price, Matched(b, req).left[k].request.price)
  {
    var side := Opposite(req.side);
    var makers := Queue(b, side);
    var left := Matched(b, req).left;
    var n := Spent(req.side, req.price, req.id, req.quantity, makers);
    assert forall k :: 0 <= k < |makers| ==> OrderOk(side, makers[k], b.nextSequence);
    WalkShape(req.side, req.price, req.id, req.quantity, makers);
    RemainderKeeps(side, makers, n, left, b.nextSequence);
    forall k | 0 <= k < |left|
      ensures !Crosses(req.side, req.price, left[k].request.price)
    {
      assert k > 0 ==> Before(side, makers[n], makers[n + k]);
    }
  }

  lemma RestKeeps(b: Book, req: OrderRequest)
    requires BookInv(b) && Matched(b, req).remaining > 0 && !Contains(AfterMatch(b, req), req.id)
    ensures var after := AfterMatch(b, req);
            BookInv(WithQueue(after, req.side, Insert(req.side, Queue(after, req.side), Refreshed(Unmatched(b, req)))))
  {
    var after := AfterMatch(b, req);
    var o := Refreshed(Unmatched(b, req));
    var mine, theirs := Queue(after, req.side), Queue(after, Opposite(req.side));
    MatchKeeps(b, req);
    LeftoverUncrossed(b, req);
    assert mine == Queue(b, req.side) && theirs == Matched(b, req).left;
    InsertKeeps(req.side, mine, o);
    var grown := Insert(req.side, mine, o);
    forall i, j | 0 <= i < |grown| && 0 <= j < |theirs|
      ensures grown[i].request.id != theirs[j].request.id
      ensures if req.side.Buy? then grown[i].request.price < theirs[j].request.price else theirs[j].request.price < grown[i].request.price
    {
      assert grown[i] == o || grown[i] in mine;
      assert theirs[j].request.id != req.id;
    }
  }

  /** Every placement keeps the invariant, whatever its quantity, display size, flags and id. */
  lemma PlaceKeeps(b: Book, req: OrderRequest)
    requires BookInv(b)
    ensures BookInv(Place(b, req).book)
  {
    if !PostOnlyBlocked(b, req) && !FokBlocked(b, req) {
      MatchKeeps(b, req);
      if Matched(b, req).remaining > 0 && !req.tif.Ioc? && !req.tif.Fok? && !Contains(AfterMatch(b, req), req.id) {
        RestKeeps(b, req);
      }
    }
  }

  lemma PartOfRequests(q: seq<Order>, p: nat)
    requires p < |q|
    ensures FromRequests(q[..p] + q[p + 1..], q)
  {
    var r := q[..p] + q[p + 1..];
    forall i | 0 <= i < |r|
      ensures HasRequest(q, r[i].request)
    {
      var j := if i < p then i else i + 1;
      assert r[i] == q[j];
    }
  }

  /** Taking out one place of a queue keeps it in order and removes its id. */
  lemma RemoveAtKeeps(b: Book, side: Side, p: nat)
    requires BookInv(b) && p < |Queue(b, side)|
    ensures var q := Queue(b, side);
            var r := q[..p] + q[p + 1..];
            BookInv(WithQueue(b, side, r)) && !HasId(r, q[p].request.id)
  {
    var q := Queue(b, side);
    var r := q[..p] + q[p + 1..];
    assert QueueInv(side, q, b.nextSequence);
    RemoveKeeps(side, q, p, b.nextSequence);
    forall i | 0 <= i < |r|
      ensures q[if i < p then i else i + 1] == r[i] && r[i].request.id != q[p].request.id
    {
    }
    PartOfRequests(q, p);
    ShrinkKeeps(b, side, r, b.nextSequence);
  }

  /** Removal takes out exactly the order with that id and keeps the invariant. */
  lemma RemoveIdKeeps(b: Book, id: OrderId)
    requires BookInv(b)
    ensures BookInv(RemoveId(b, id)) && !Contains(RemoveId(b, id), id)
  {
    if HasId(b.bids, id) {
      RemoveAtKeeps(b, Buy, IndexOf(b.bids, id));
    } else if HasId(b.asks, id) {
      RemoveAtKeeps(b, Sell, IndexOf(b.asks, id));
    }
  }

  /** q' is q without its place p, which holds o. */
  ghost predicate IsRemoval(q: seq<Order>, o: Order, p: nat, q': seq<Order>) {
    p < |q| && q[p] == o && q' == q[..p] + q[p + 1..]
  }

  /** In a book with distinct ids, removing the place of an order is removing its id. */
  lemma RemovalById(b: Book, side: Side, o: Order, p: nat, q': seq<Order>)
    requires BookInv(b) && IsRemoval(Queue(b, side), o, p, q')
    ensures Contains(b, o.request.id) && Lookup(b, o.request.id) == o
    ensures RemoveId(b, o.request.id) == WithQueue(b, side, q')
  {
    var q, id := Queue(b, side), o.request.id;
    assert QueueInv(side, q, b.nextSequence);
    WithoutAt(q, p, id);
    assert side.Sell? ==> forall i :: 0 <= i < |b.bids| ==> b.bids[i].request.id != q[p].request.id;
  }
}
