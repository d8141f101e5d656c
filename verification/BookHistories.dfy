/** What whole runs of the matching engine promise about single orders, and what they do not depend on. */
module BookHistories {
  import opened Common
  import opened OrderBook
  import opened Ladder
  import opened BookInvariant
  import opened BookTheorems
  import opened BookRuns

  // ----- every resting order accounts for what it was placed with -----

  /** The fills that an operation makes in a market. */
  function OperationFills(e: Engine, op: Operation, m: U16): seq<FillEvent> {
    match op
    case Submitting(order) => if order.id.market == m then Submit(e, order).1.fills else []
    case Replacing(req) => if req.id.market == m then Replace(e, req).1.fills else []
    case Cancelling(_) => []
    case Adding(_) => []
    case Clearing(_) => []
  }

  /** The operation brings an order of this id to rest in a market. */
  predicate ComesToRest(e: Engine, op: Operation, m: U16, id: OrderId) {
    match op
    case Submitting(order) => order.id == id && id.market == m && Submit(e, order).1.resting
    case Replacing(req) => req.id == id && id.market == m && Replace(e, req).1.resting
    case Cancelling(_) => false
    case Adding(_) => false
    case Clearing(_) => false
  }

  /** What the resting order of an id has traded since it was placed: as a taker when it was, and as a maker from then on. */
  function FilledSince(ops: seq<Operation>, m: U16, id: OrderId): int {
    if ops == [] then 0
    else
      var before := ops[..|ops| - 1];
      FilledAfter(Run(map[], before), ops[|ops| - 1], m, id, FilledSince(before, m, id))
  }

  function FilledAfter(e: Engine, op: Operation, m: U16, id: OrderId, filled: int): int {
    var fills := OperationFills(e, op, m);
    if ComesToRest(e, op, m, id) then SumQuantity(fills) else filled + FilledFor(fills, id)
  }

  /** Every order of the queue was placed with what remains of it plus what it has traded. */
  ghost predicate QueuePaid(q: seq<Order>, filled: OrderId -> int) {
    forall k :: 0 <= k < |q| ==> q[k].request.quantity == q[k].remaining + filled(q[k].request.id)
  }

  ghost predicate Paid(b: Book, filled: OrderId -> int) {
    QueuePaid(b.bids, filled) && QueuePaid(b.asks, filled)
  }

  lemma {:induction false} RemainingAt(q: seq<Order>, k: nat)
    requires DistinctIds(q) && k < |q|
    ensures RemainingOf(q, q[k].request.id) == q[k].remaining
  {
    if k > 0 {
      assert q[0].request.id != q[k].request.id && q[1..][k - 1] == q[k];
      RemainingAt(q[1..], k - 1);
    }
  }

  /** Makers that are left have paid their fills; orders of the other side have none to pay. */
  lemma MatchPays(b: Book, req: OrderRequest, filled: OrderId -> int, filled': OrderId -> int)
    requires BookInv(b) && Paid(b, filled)
    requires forall id :: filled'(id) == filled(id) + FilledFor(Matched(b, req).fills, id)
    ensures Paid(AfterMatch(b, req), filled')
  {
    hide Walk, BookInv, FilledFor, RemainingOf;
    var side := Opposite(req.side);
    var makers, mine, w := Queue(b, side), Queue(b, req.side), Matched(b, req);
    var n := Spent(req.side, req.price, req.id, req.quantity, makers);
    SideInv(b, side);
    MakersCross(b, req);
    WalkShape(req.side, req.price, req.id, req.quantity, makers);
    RemainderKeeps(side, makers, n, w.left, b.nextSequence);
    forall k | 0 <= k < |w.left|
      ensures w.left[k].request.quantity == w.left[k].remaining + filled'(w.left[k].request.id)
    {
      MakersPayTheirFills(req.side, req.price, req.id, req.quantity, makers, w.left[k].request.id);
      RemainingAt(w.left, k);
      RemainingAt(makers, n + k);
      assert makers[n + k].request == w.left[k].request;
    }
    forall k | 0 <= k < |mine|
      ensures mine[k].request.quantity == mine[k].remaining + filled'(mine[k].request.id)
    {
      MakersPayTheirFills(req.side, req.price, req.id, req.quantity, makers, mine[k].request.id);
      OtherSide(b, req.side, k);
      AbsentRemaining(makers, mine[k].request.id);
      AbsentRemaining(w.left, mine[k].request.id);
    }
  }

  lemma OtherSide(b: Book, side: Side, k: nat)
    requires BookInv(b) && k < |Queue(b, side)|
    ensures var theirs := Queue(b, Opposite(side));
            forall j :: 0 <= j < |theirs| ==> theirs[j].request.id != Queue(b, side)[k].request.id
  {
  }

  lemma PlacePays(b: Book, req: OrderRequest, filled: OrderId -> int, filled': OrderId -> int)
    requires BookInv(b) && Paid(b, filled)
    requires var r := Place(b, req).result;
             forall id :: filled'(id) == if r.resting && id == req.id then SumQuantity(r.fills) else filled(id) + FilledFor(r.fills, id)
    ensures Paid(Place(b, req).book, filled')
  {
    hide Walk, BookInv, FilledFor, SumQuantity, Insert, Fillable, QueuePaid;
    var r := Place(b, req).result;
    RejectionExact(b, req);
    if PostOnlyBlocked(b, req) || FokBlocked(b, req) {
      NothingFilled(b, filled, filled', r.fills);
    } else {
      var middle := (id: OrderId) => filled(id) + FilledFor(Matched(b, req).fills, id);
      MatchPays(b, req, filled, middle);
      var after := AfterMatch(b, req);
      if r.resting {
        PlaceRests(b, req);
        MatchConserves(b, req);
        var o := Refreshed(Unmatched(b, req));
        InsertMembers(req.side, Queue(b, req.side), o);
        RestingPaid(b, req, middle, filled');
      } else {
        SamePaid(after, middle, filled');
      }
    }
  }

  lemma SamePaid(b: Book, filled: OrderId -> int, filled': OrderId -> int)
    requires Paid(b, filled) && forall id :: filled'(id) == filled(id)
    ensures Paid(b, filled')
  {
  }

  /** The order that comes to rest has a new id, so the others' accounts stay as they are. */
  lemma RestingPaid(b: Book, req: OrderRequest, filled: OrderId -> int, filled': OrderId -> int)
    requires Place(b, req).result.resting && Paid(AfterMatch(b, req), filled) && !Contains(AfterMatch(b, req), req.id)
    requires forall id :: id != req.id ==> filled'(id) == filled(id)
    requires var o := Refreshed(Unmatched(b, req));
             && o.request == req && req.quantity == o.remaining + filled'(req.id)
             && Place(b, req).book == WithQueue(AfterMatch(b, req), req.side, Insert(req.side, Queue(b, req.side), o))
             && forall i :: 0 <= i < |Insert(req.side, Queue(b, req.side), o)| ==>
                  Insert(req.side, Queue(b, req.side), o)[i] == o || Insert(req.side, Queue(b, req.side), o)[i] in Queue(b, req.side)
    ensures Paid(Place(b, req).book, filled')
  {
    hide Insert, Place, Refreshed, Unmatched;
    var after, o := AfterMatch(b, req), Refreshed(Unmatched(b, req));
    var mine, theirs := Queue(after, req.side), Queue(after, Opposite(req.side));
    assert mine == Queue(b, req.side);
    forall x | x in mine || x in theirs
      ensures x.request.quantity == x.remaining + filled'(x.request.id)
    {
      assert x.request.id != req.id;
    }
    forall i | 0 <= i < |Insert(req.side, mine, o)|
      ensures var x := Insert(req.side, mine, o)[i]; x.request.quantity == x.remaining + filled'(x.request.id)
    {
    }
  }

  lemma RemovalPaid(b: Book, id: OrderId, filled: OrderId -> int)
    requires Paid(b, filled)
    ensures Paid(RemoveId(b, id), filled)
  {
  }

  lemma EmptyPaid(filled: OrderId -> int)
    ensures Paid(EMPTY_BOOK, filled)
  {
  }

  /** One operation on a market's book; the book may be new. */
  lemma StepPays(e: Engine, op: Operation, m: U16, filled: OrderId -> int, filled': OrderId -> int)
    requires m in Step(e, op) && EngineInv(e) && Paid(BookOf(e, m), filled)
    requires forall id :: filled'(id) == FilledAfter(e, op, m, id, filled(id))
    ensures Paid(Step(e, op)[m], filled')
  {
    hide Place, Contains, RemoveId, Lookup, BookInv, InMarket, QueuePaid, SumQuantity, FilledFor;
    var b := BookOf(e, m);
    BookOfKept(e, m);
    NothingFilled(b, filled, filled', OperationFills(e, op, m));
    match op
    case Submitting(order) =>
      if order.id.market == m && Admissible(order) {
        PlacePays(b, order, filled, filled');
      }
    case Cancelling(id) =>
      RemovalPaid(b, id, filled');
    case Replacing(req) =>
      if req.id.market == m && Contains(b, req.id) {
        RemovalPaid(b, req.id, filled);
        RemoveIdKeeps(b, req.id);
        PlacePays(RemoveId(b, req.id), ReplacementRequest(Lookup(b, req.id), req), filled, filled');
      }
    case Adding(_) =>
    case Clearing(_) => EmptyPaid(filled');
  }

  /** Without fills every account stays as it is. */
  lemma NothingFilled(b: Book, filled: OrderId -> int, filled': OrderId -> int, fills: seq<FillEvent>)
    requires Paid(b, filled)
    ensures fills == [] && (forall id :: filled'(id) == filled(id) + FilledFor(fills, id)) ==> Paid(b, filled')
  {
  }

  lemma BookOfKept(e: Engine, m: U16)
    requires EngineInv(e)
    ensures BookInv(BookOf(e, m))
  {
  }

  /** Over every run, each resting order was placed with exactly what remains of it plus every fill naming it since. */
  lemma {:induction false} RestingOrdersAddUp(ops: seq<Operation>, m: U16)
    ensures Paid(BookOf(Run(map[], ops), m), id => FilledSince(ops, m, id))
  {
    hide Step, Paid, FilledAfter, EngineInv;
    var filled' := (id: OrderId) => FilledSince(ops, m, id);
    if ops == [] {
      EmptyPaid(filled');
    } else {
      var before, op := ops[..|ops| - 1], ops[|ops| - 1];
      RestingOrdersAddUp(before, m);
      RunKeeps(before);
      if m in Run(map[], ops) {
        StepPays(Run(map[], before), op, m, id => FilledSince(before, m, id), filled');
      } else {
        EmptyPaid(filled');
      }
    }
  }

  // ----- display never matters -----

  /** A request without its hidden and iceberg flags. */
  function Plain(req: OrderRequest): OrderRequest {
    req.(displayQuantity := 0, flags := PlainFlags(req.flags))
  }

  function PlainFlags(flags: Flags): Flags {
    flags.(hidden := false, iceberg := false)
  }

  /** An order without all that concerns its display. */
  function PlainOrder(o: Order): Order {
    o.(request := Plain(o.request), displayRemaining := 0, displaySize := 0)
  }

  ghost predicate Alike(p: seq<Order>, q: seq<Order>) {
    |p| == |q| && forall k :: 0 <= k < |p| ==> PlainOrder(p[k]) == PlainOrder(q[k])
  }

  /** Two books that differ in nothing but display. */
  ghost predicate AlikeBooks(b: Book, c: Book) {
    Alike(b.bids, c.bids) && Alike(b.asks, c.asks) && b.nextSequence == c.nextSequence
  }

  lemma AlikeTails(p: seq<Order>, q: seq<Order>)
    requires Alike(p, q) && p != []
    ensures q != [] && Alike(p[1..], q[1..]) && p[0].request.price == q[0].request.price && p[0].remaining == q[0].remaining
    ensures p[0].request.id == q[0].request.id
  {
    assert PlainOrder(p[0]) == PlainOrder(q[0]);
    assert Plain(p[0].request).price == Plain(q[0].request).price && Plain(p[0].request).id == Plain(q[0].request).id;
    forall k | 0 <= k < |p[1..]|
      ensures PlainOrder(p[1..][k]) == PlainOrder(q[1..][k])
    {
      assert PlainOrder(p[k + 1]) == PlainOrder(q[k + 1]);
    }
  }

  lemma AlikeCons(a: Order, b: Order, p: seq<Order>, q: seq<Order>)
    requires PlainOrder(a) == PlainOrder(b) && Alike(p, q)
    ensures Alike([a] + p, [b] + q)
  {
  }

  lemma {:induction false} AlikeWalks(t: Taker, p: seq<Order>, q: seq<Order>)
    requires Alike(p, q)
    ensures var v, w := Walk(t.side, t.limit, t.id, t.quantity, p), Walk(t.side, t.limit, t.id, t.quantity, q);
            v.fills == w.fills && v.remaining == w.remaining && Alike(v.left, w.left)
    decreases |p|
  {
    hide Alike;
    if p == [] || q == [] {
      AlikeEmpty(p, q);
    } else {
      AlikeTails(p, q);
      if t.quantity > 0 && Crosses(t.side, t.limit, p[0].request.price) {
        var traded := Min(t.quantity, p[0].remaining);
        if traded == p[0].remaining {
          AlikeWalks(t.(quantity := t.quantity - traded), p[1..], q[1..]);
        } else {
          AlikeHeads(p, q);
          AlikeCons(AfterFill(p[0], traded), AfterFill(q[0], traded), p[1..], q[1..]);
        }
      }
    }
  }

  lemma AlikeEmpty(p: seq<Order>, q: seq<Order>)
    requires Alike(p, q) && (p == [] || q == [])
    ensures p == q == []
  {
  }

  lemma AlikeHeads(p: seq<Order>, q: seq<Order>)
    requires Alike(p, q) && p != [] && q != []
    ensures forall traded :: PlainOrder(AfterFill(p[0], traded)) == PlainOrder(AfterFill(q[0], traded))
  {
    assert PlainOrder(p[0]) == PlainOrder(q[0]);
  }

  lemma {:induction false} AlikeFillable(side: Side, limit: int, p: seq<Order>, q: seq<Order>)
    requires Alike(p, q)
    ensures Fillable(side, limit, p) == Fillable(side, limit, q)
    decreases |p|
  {
    if p != [] {
      AlikeTails(p, q);
      AlikeFillable(side, limit, p[1..], q[1..]);
    }
  }

  lemma {:induction false} AlikeInserts(side: Side, p: seq<Order>, q: seq<Order>, a: Order, b: Order)
    requires Alike(p, q) && PlainOrder(a) == PlainOrder(b)
    ensures Alike(Insert(side, p, a), Insert(side, q, b))
    decreases |p|
  {
    hide Alike;
    assert Plain(a.request).price == Plain(b.request).price;
    if p == [] || q == [] {
      AlikeEmpty(p, q);
      AlikeCons(a, b, p, q);
    } else {
      AlikeTails(p, q);
      if Better(side, a.request.price, p[0].request.price) {
        AlikeCons(a, b, p, q);
      } else {
        AlikeInserts(side, p[1..], q[1..], a, b);
        AlikeFirst(p, q);
        AlikeCons(p[0], q[0], Insert(side, p[1..], a), Insert(side, q[1..], b));
      }
    }
  }

  lemma AlikeFirst(p: seq<Order>, q: seq<Order>)
    requires Alike(p, q) && p != [] && q != []
    ensures PlainOrder(p[0]) == PlainOrder(q[0])
  {
  }

  lemma AlikeIds(p: seq<Order>, q: seq<Order>, id: OrderId)
    requires Alike(p, q)
    ensures HasId(p, id) <==> HasId(q, id)
    ensures HasId(p, id) ==> IndexOf(p, id) == IndexOf(q, id) && PlainOrder(p[IndexOf(p, id)]) == PlainOrder(q[IndexOf(q, id)])
    ensures Alike(Without(p, id), Without(q, id))
  {
    forall k | 0 <= k < |p|
      ensures p[k].request.id == q[k].request.id
    {
      assert PlainOrder(p[k]) == PlainOrder(q[k]);
      assert Plain(p[k].request).id == Plain(q[k].request).id;
    }
  }

  /** What two requests have in common that differ in nothing but display. */
  ghost predicate AlikeRequests(r: OrderRequest, s: OrderRequest) {
    Plain(r) == Plain(s)
  }

  lemma AlikeTerms(r: OrderRequest, s: OrderRequest)
    requires AlikeRequests(r, s)
    ensures r.id == s.id && r.account == s.account && r.side == s.side && r.quantity == s.quantity && r.price == s.price && r.tif == s.tif
    ensures r.flags.postOnly == s.flags.postOnly && r.flags.reduceOnly == s.flags.reduceOnly
  {
    assert Plain(r).id == r.id && Plain(s).id == s.id && Plain(r).account == r.account && Plain(s).account == s.account;
    assert Plain(r).side == r.side && Plain(s).side == s.side && Plain(r).quantity == r.quantity && Plain(s).quantity == s.quantity;
    assert Plain(r).price == r.price && Plain(s).price == s.price && Plain(r).tif == r.tif && Plain(s).tif == s.tif;
    assert Plain(r).flags == PlainFlags(r.flags) && Plain(s).flags == PlainFlags(s.flags);
    assert PlainFlags(r.flags).postOnly == r.flags.postOnly && PlainFlags(s.flags).postOnly == s.flags.postOnly;
    assert PlainFlags(r.flags).reduceOnly == r.flags.reduceOnly && PlainFlags(s.flags).reduceOnly == s.flags.reduceOnly;
  }

  lemma AlikeQueues(b: Book, c: Book, side: Side)
    requires AlikeBooks(b, c)
    ensures Alike(Queue(b, side), Queue(c, side))
  {
  }

  lemma AlikeMatches(b: Book, c: Book, r: OrderRequest, s: OrderRequest)
    requires AlikeBooks(b, c) && AlikeRequests(r, s)
    ensures Matched(b, r).fills == Matched(c, s).fills && Matched(b, r).remaining == Matched(c, s).remaining
    ensures AlikeBooks(AfterMatch(b, r), AfterMatch(c, s))
    ensures PlainOrder(Refreshed(Unmatched(b, r))) == PlainOrder(Refreshed(Unmatched(c, s)))
    ensures PostOnlyBlocked(b, r) == PostOnlyBlocked(c, s) && FokBlocked(b, r) == FokBlocked(c, s)
  {
    AlikeTerms(r, s);
    var side := Opposite(r.side);
    AlikeQueues(b, c, side);
    AlikeWalks(TakerOf(r), Queue(b, side), Queue(c, side));
    AlikeFillable(r.side, r.price, Queue(b, side), Queue(c, side));
    hide Walk, Fillable, Alike;
    if Queue(b, side) == [] || Queue(c, side) == [] {
      AlikeEmpty(Queue(b, side), Queue(c, side));
    } else {
      AlikeTails(Queue(b, side), Queue(c, side));
    }
  }

  /** Placements alike in all but display have the same result, on books that stay alike. */
  lemma AlikePlacements(b: Book, c: Book, r: OrderRequest, s: OrderRequest)
    requires AlikeBooks(b, c) && AlikeRequests(r, s)
    ensures Place(b, r).result == Place(c, s).result && AlikeBooks(Place(b, r).book, Place(c, s).book)
  {
    AlikeTerms(r, s);
    AlikeMatches(b, c, r, s);
    var after, after' := AfterMatch(b, r), AfterMatch(c, s);
    AlikeIds(after.bids, after'.bids, r.id);
    AlikeIds(after.asks, after'.asks, r.id);
    AlikeQueues(after, after', r.side);
    AlikeInserts(r.side, Queue(after, r.side), Queue(after', r.side), Refreshed(Unmatched(b, r)), Refreshed(Unmatched(c, s)));
    hide Alike, AfterMatch, Matched, Unmatched, Refreshed, PlainOrder, Insert, PostOnlyBlocked, FokBlocked, HasId;
    UnmatchedTerms(b, r);
    UnmatchedTerms(c, s);
  }

  lemma UnmatchedTerms(b: Book, req: OrderRequest)
    ensures Unmatched(b, req).request == req && Unmatched(b, req).remaining == Matched(b, req).remaining
  {
  }

  lemma AlikeRemovals(b: Book, c: Book, id: OrderId)
    requires AlikeBooks(b, c)
    ensures Contains(b, id) == Contains(c, id) && AlikeBooks(RemoveId(b, id), RemoveId(c, id))
    ensures Contains(b, id) ==> AlikeRequests(Lookup(b, id).request, Lookup(c, id).request)
  {
    AlikeIds(b.bids, c.bids, id);
    AlikeIds(b.asks, c.asks, id);
    hide Alike;
  }

  // ----- over whole runs -----

  datatype Reply = Ordered(order: OrderResult) | Cancelled(cancel: CancelResult) | Replaced(replacement: ReplaceResult) | NoReply

  function ReplyTo(e: Engine, op: Operation): Reply {
    match op
    case Submitting(order) => Ordered(Submit(e, order).1)
    case Cancelling(id) => Cancelled(Cancel(e, id).1)
    case Replacing(req) => Replaced(Replace(e, req).1)
    case Adding(_) => NoReply
    case Clearing(_) => NoReply
  }

  function Replies(ops: seq<Operation>): seq<Reply> {
    if ops == [] then []
    else
      var before := ops[..|ops| - 1];
      Replies(before) + [ReplyTo(Run(map[], before), ops[|ops| - 1])]
  }

  function PlainOperation(op: Operation): Operation {
    match op
    case Submitting(order) => Submitting(Plain(order))
    case Replacing(req) => Replacing(req.(newDisplayQuantity := 0, newFlags := PlainFlags(req.newFlags)))
    case Cancelling(_) => op
    case Adding(_) => op
    case Clearing(_) => op
  }

  function PlainOperations(ops: seq<Operation>): (r: seq<Operation>)
    ensures |r| == |ops| && forall i :: 0 <= i < |r| ==> r[i] == PlainOperation(ops[i])
  {
    seq(|ops|, i requires 0 <= i < |ops| => PlainOperation(ops[i]))
  }

  /** A submitted order is not turned away for its display quantity. */
  predicate DisplayAdmissible(op: Operation) {
    op.Submitting? && op.order.quantity > 0 ==> Admissible(op.order)
  }

  ghost predicate AlikeEngines(e: Engine, f: Engine) {
    e.Keys == f.Keys && forall m :: m in e ==> AlikeBooks(e[m], f[m])
  }

  lemma AlikeBookOf(e: Engine, f: Engine, m: U16)
    requires AlikeEngines(e, f)
    ensures AlikeBooks(BookOf(e, m), BookOf(f, m))
  {
  }

  lemma AlikeSteps(e: Engine, f: Engine, op: Operation)
    requires AlikeEngines(e, f) && DisplayAdmissible(op)
    ensures ReplyTo(e, op) == ReplyTo(f, PlainOperation(op)) && AlikeEngines(Step(e, op), Step(f, PlainOperation(op)))
  {
    hide AlikeBooks, Place, Contains, RemoveId, Lookup;
    match op
    case Submitting(order) =>
      AlikeBookOf(e, f, order.id.market);
      AlikePlacements(BookOf(e, order.id.market), BookOf(f, order.id.market), order, Plain(order));
    case Cancelling(id) =>
      if id.market in e {
        AlikeRemovals(e[id.market], f[id.market], id);
      }
    case Replacing(req) =>
      var m := req.id.market;
      if m in e {
        var b, c := e[m], f[m];
        AlikeRemovals(b, c, req.id);
        if Contains(b, req.id) {
          AlikeReplacements(Lookup(b, req.id), Lookup(c, req.id), req);
          AlikePlacements(RemoveId(b, req.id), RemoveId(c, req.id), ReplacementRequest(Lookup(b, req.id), req),
                          ReplacementRequest(Lookup(c, req.id), PlainOperation(op).replacement));
        }
      }
    case Adding(m) => AlikeEmptyBooks();
    case Clearing(m) => AlikeEmptyBooks();
  }

  lemma AlikeEmptyBooks()
    ensures AlikeBooks(EMPTY_BOOK, EMPTY_BOOK)
  {
  }

  lemma AlikeReplacements(o: Order, p: Order, req: ReplaceRequest)
    requires AlikeRequests(o.request, p.request)
    ensures AlikeRequests(ReplacementRequest(o, req),
                          ReplacementRequest(p, req.(newDisplayQuantity := 0, newFlags := PlainFlags(req.newFlags))))
  {
    AlikeTerms(o.request, p.request);
  }

  /**
   Over every run, hiding orders in whole or in part changes no reply, so no
   fill either, and nothing about the books but what they show.
   */
  lemma {:induction false} DisplayNeverMatters(ops: seq<Operation>)
    requires forall i :: 0 <= i < |ops| ==> DisplayAdmissible(ops[i])
    ensures Replies(PlainOperations(ops)) == Replies(ops)
    ensures AlikeEngines(Run(map[], ops), Run(map[], PlainOperations(ops)))
  {
    hide Step, ReplyTo, DisplayAdmissible, AlikeBooks;
    if ops != [] {
      var before, op := ops[..|ops| - 1], ops[|ops| - 1];
      DisplayNeverMatters(before);
      AlikeSteps(Run(map[], before), Run(map[], PlainOperations(before)), op);
      assert PlainOperations(ops)[..|ops| - 1] == PlainOperations(before);
    }
  }
}
