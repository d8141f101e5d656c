/**
 Order records and price levels as they live in memory: an intrusive doubly
 linked FIFO per price with cached quantity totals.  The ghost fields `nodes`
 and `orders` give the list and its contents; Valid ties them to the links.
 */
module PriceLevels {
  import opened Common
  import opened OrderBook
  import opened Ladder

  class OrderRecord {
    const request: OrderRequest
    const displaySize: int
    const fifoSeq: nat
    var remaining: int
    var displayRemaining: int
    var level: PriceLevel?
    var prev: OrderRecord?
    var next: OrderRecord?

    constructor (req: OrderRequest, sequence: nat)
      ensures View() == NewOrder(req, sequence)
      ensures level == null && prev == null && next == null
    {
      request, remaining, fifoSeq := req, req.quantity, sequence;
      if req.flags.hidden {
        displaySize, displayRemaining := 0, 0;
      } else if req.flags.iceberg {
        displaySize, displayRemaining := req.displayQuantity, Min(req.displayQuantity, req.quantity);
      } else {
        displaySize, displayRemaining := req.quantity, req.quantity;
      }
      level, prev, next := null, null, null;
    }

    ghost function View(): Order
      reads `remaining, `displayRemaining
    {
      Order(request, remaining, displayRemaining, displaySize, fifoSeq)
    }

    method RefreshDisplay()
      modifies this`displayRemaining
      ensures View() == Refreshed(old(View()))
    {
      if request.flags.hidden {
        displayRemaining := 0;
      } else if request.flags.iceberg && displaySize > 0 {
        displayRemaining := Min(displaySize, remaining);
      } else {
        displayRemaining := remaining;
      }
    }
  }

  class PriceLevel {
    var head: OrderRecord?
    var tail: OrderRecord?
    var totalQty: int
    var visibleQty: int
    ghost var nodes: seq<OrderRecord>
    ghost var orders: seq<Order>

    constructor ()
      ensures Valid() && nodes == [] && orders == []
    {
      head, tail, totalQty, visibleQty := null, null, 0, 0;
      nodes, orders := [], [];
    }

    /** The links form a list over `nodes`, and every node points back to this level. */
    ghost predicate Linked()
      reads `head, `tail, `nodes, nodes`prev, nodes`next, nodes`level
    {
      && (nodes == [] ==> head == null && tail == null)
      && (nodes != [] ==>
            && head == nodes[0] && nodes[0].prev == null
            && tail == nodes[|nodes| - 1] && nodes[|nodes| - 1].next == null)
      && (forall i {:trigger nodes[i].prev} :: 1 <= i < |nodes| ==> nodes[i].prev == nodes[i - 1])
      && (forall i {:trigger nodes[i].next} :: 0 <= i < |nodes| - 1 ==> nodes[i].next == nodes[i + 1])
      && (forall i {:trigger nodes[i].level} :: 0 <= i < |nodes| ==> nodes[i].level == this)
      && (forall i, j :: 0 <= i < j < |nodes| ==> nodes[i] != nodes[j])
    }

    /** The records hold exactly these contents, in this order. */
    static ghost predicate Shows(nodes: seq<OrderRecord>, orders: seq<Order>)
      reads nodes`remaining, nodes`displayRemaining
    {
      |orders| == |nodes| && forall i :: 0 <= i < |nodes| ==> nodes[i].View() == orders[i]
    }

    static lemma ShowsRemoved(nodes: seq<OrderRecord>, orders: seq<Order>, k: nat)
      requires Shows(nodes, orders) && k < |nodes|
      ensures Shows(nodes[..k] + nodes[k + 1..], orders[..k] + orders[k + 1..])
    {
    }

    static lemma ShowsAppended(nodes: seq<OrderRecord>, orders: seq<Order>, record: OrderRecord)
      requires Shows(nodes, orders)
      ensures Shows(nodes + [record], orders + [record.View()])
    {
    }

    ghost predicate Valid()
      reads this, nodes
    {
      && Linked()
      && Shows(nodes, orders)
      && totalQty == SumRemaining(orders)
      && visibleQty == SumShown(orders)
    }

    predicate Empty()
      reads this
    {
      head == null
    }

    /** The pointer half of `push_back`. */
    method LinkLast(record: OrderRecord)
      requires Linked() && record !in nodes
      modifies `head, `tail, `nodes, record`prev, record`next, record`level, nodes`next
      ensures Linked() && nodes == old(nodes) + [record]
    {
      record.prev := tail;
      record.next := null;
      if tail != null {
        tail.next := record;
      } else {
        head := record;
      }
      tail := record;
      record.level := this;
      nodes := nodes + [record];
    }

    /** The pointer half of `remove`. */
    method Unlink(record: OrderRecord, ghost k: nat)
      requires Linked() && k < |nodes| && nodes[k] == record
      modifies `head, `tail, `nodes, record`level, nodes`prev, nodes`next
      ensures Linked() && nodes == old(nodes)[..k] + old(nodes)[k + 1..]
      ensures record.level == null && record.prev == null && record.next == null && record !in nodes
    {
      ghost var before := nodes;
      assert record.prev == if k > 0 then before[k - 1] else null;
      assert record.next == if k < |before| - 1 then before[k + 1] else null;
      if record.prev != null {
        record.prev.next := record.next;
      } else {
        head := record.next;
      }
      if record.next != null {
        record.next.prev := record.prev;
      } else {
        tail := record.prev;
      }
      record.prev := null;
      record.next := null;
      record.level := null;
      nodes := nodes[..k] + nodes[k + 1..];
    }

    method PushBack(record: OrderRecord)
      requires Valid() && record !in nodes
      modifies this, record, nodes
      ensures Valid()
      ensures nodes == old(nodes) + [record] && orders == old(orders) + [record.View()]
      ensures record.View() == old(record.View())
    {
      SumsAppend(orders, [record.View()]);
      ShowsAppended(nodes, orders, record);
      totalQty := totalQty + record.remaining;
      visibleQty := visibleQty + record.displayRemaining;
      orders := orders + [record.View()];
      LinkLast(record);
    }

    method Remove(record: OrderRecord, ghost k: nat)
      requires Valid() && k < |nodes| && nodes[k] == record
      modifies this, nodes
      ensures Valid()
      ensures nodes == old(nodes)[..k] + old(nodes)[k + 1..]
      ensures orders == old(orders)[..k] + old(orders)[k + 1..]
      ensures record.View() == old(record.View())
      ensures record.level == null && record.prev == null && record.next == null && record !in nodes
    {
      hide Linked, SumRemaining, SumShown;
      ghost var left, kept := nodes[..k] + nodes[k + 1..], orders[..k] + orders[k + 1..];
      SumsRemoved(orders, k);
      ShowsRemoved(nodes, orders, k);
      totalQty := totalQty - record.remaining;
      visibleQty := visibleQty - record.displayRemaining;
      orders := kept;
      assert Shows(left, kept);
      Unlink(record, k);
    }

    /** Everything is in order except that record k has just lost `filled` of its remaining quantity. */
    ghost predicate Trading(k: nat, filled: int)
      reads this, nodes
    {
      && Linked()
      && |orders| == |nodes| && k < |nodes|
      && (forall i :: 0 <= i < |nodes| && i != k ==> nodes[i].View() == orders[i])
      && nodes[k].View() == orders[k].(remaining := orders[k].remaining - filled)
      && totalQty == SumRemaining(orders)
      && visibleQty == SumShown(orders)
    }

    method UpdateAfterFill(record: OrderRecord, filled: int, ghost k: nat)
      requires Trading(k, filled) && nodes[k] == record
      modifies this, record
      ensures Valid() && nodes == old(nodes)
      ensures orders == old(orders)[k := AfterFill(old(orders)[k], filled)]
      ensures record.next == old(record.next) && record.remaining == old(record.remaining)
    {
      hide SumRemaining, SumShown;
      totalQty := totalQty - filled;
      var oldDisplay := record.displayRemaining;
      record.RefreshDisplay();
      var newDisplay := record.displayRemaining;
      visibleQty := visibleQty - oldDisplay;
      visibleQty := visibleQty + newDisplay;
      SumsUpdated(orders, k, AfterFill(orders[k], filled));
      orders := orders[k := AfterFill(orders[k], filled)];
    }

    /** One trade of the taker against the head of the list. */
    method TradeWithHead(taker: OrderRecord, price: int) returns (fill: FillEvent)
      requires Valid() && nodes != [] && taker !in nodes
      modifies this, nodes, taker`remaining
      ensures Valid() && nodes == old(nodes)
      ensures var traded := Min(old(taker.remaining), old(orders)[0].remaining);
              && fill == FillEvent(old(orders)[0].request.id, taker.request.id, traded, price)
              && taker.remaining == old(taker.remaining) - traded
              && orders == old(orders)[0 := AfterFill(old(orders)[0], traded)]
    {
      var maker := head;
      var traded := Min(taker.remaining, maker.remaining);
      taker.remaining := taker.remaining - traded;
      maker.remaining := maker.remaining - traded;
      UpdateAfterFill(maker, traded, 0);
      fill := FillEvent(maker.request.id, taker.request.id, traded, price);
    }

    /** The body of the inner matching loop: trade, then drop the maker if it is spent. */
    method MatchHead(taker: OrderRecord, price: int, index: map<U64, OrderRecord>)
      returns (fill: FillEvent, next: OrderRecord?, index': map<U64, OrderRecord>)
      requires Valid() && nodes != [] && taker !in nodes && taker.remaining > 0
      modifies this, nodes, taker`remaining
      ensures Valid()
      ensures var maker := old(orders)[0];
              var traded := Min(old(taker.remaining), maker.remaining);
              && fill == FillEvent(maker.request.id, taker.request.id, traded, price)
              && taker.remaining == old(taker.remaining) - traded
              && if traded == maker.remaining then
                   && nodes == old(nodes)[1..] && orders == old(orders)[1..] && next == head
                   && index' == index - {Encode(maker.request.id)}
                 else
                   && nodes == old(nodes) && orders == [AfterFill(maker, traded)] + old(orders)[1..]
                   && index' == index && taker.remaining == 0
    {
      var maker := head;
      fill := TradeWithHead(taker, price);
      next := maker.next;
      index' := index;
      if maker.remaining == 0 {
        Remove(maker, 0);
        index' := index' - {Encode(maker.request.id)};
      }
    }

    /** The inner matching loop: eat this level from its head, dropping spent makers from the index. */
    method Consume(taker: OrderRecord, price: int, index: map<U64, OrderRecord>)
      returns (fills: seq<FillEvent>, index': map<U64, OrderRecord>, ghost spent: nat)
      requires Valid() && taker !in nodes
      requires forall k :: 0 <= k < |orders| ==> orders[k].request.price == price
      requires Crosses(taker.request.side, taker.request.price, price)
      modifies this, nodes, taker`remaining
      ensures Valid() && spent <= |old(nodes)| && nodes == old(nodes)[spent..]
      ensures WalkResult(fills, orders, taker.remaining) ==
              Walk(taker.request.side, taker.request.price, taker.request.id, old(taker.remaining), old(orders))
      ensures index' == index - Keys(old(nodes)[..spent])
    {
      hide Linked, Shows, SumRemaining, SumShown, Walk;
      HeadTells();
      var maker := head;
      fills, index', spent := [], index, 0;
      ghost var side, limit, id := taker.request.side, taker.request.price, taker.request.id;
      ghost var all, goal := nodes, Walk(side, limit, id, taker.remaining, orders);
      assert all[..0] == [];
      while maker != null && taker.remaining > 0
        invariant Valid() && spent <= |all| && nodes == all[spent..]
        invariant |orders| == |nodes| && (taker.remaining > 0 ==> ((maker == null) == (nodes == [])))
        invariant taker !in nodes
        invariant forall k :: 0 <= k < |orders| ==> orders[k].request.price == price
        invariant goal == Prepend(fills, Walk(side, limit, id, taker.remaining, orders))
        invariant index' == index - Keys(all[..spent])
        decreases |nodes|, taker.remaining
      {
        HeadTells();
        WalkStep(side, limit, id, taker.remaining, orders, fills);
        KeysStep(all, spent, index);
        var fill;
        fill, maker, index' := MatchHead(taker, price, index');
        fills := fills + [fill];
        spent := |all| - |nodes|;
        HeadTells();
      }
      WalkDone(side, limit, id, taker.remaining, orders);
    }

    lemma NodesDistinct(n: nat)
      requires Valid() && n <= |nodes|
      ensures forall r :: r in nodes[..n] ==> r !in nodes[n..]
    {
      forall i, j | 0 <= i < n && 0 <= j < |nodes| - n
        ensures nodes[..n][i] != nodes[n..][j]
      {
        assert nodes[n..][j] == nodes[n + j];
      }
    }

    lemma HeadTells()
      requires Valid()
      ensures |orders| == |nodes| && ((head == null) == (nodes == []))
      ensures nodes != [] ==> nodes[0].request.id == orders[0].request.id
    {
    }
  }

  /** One step of the walk, seen from the fills collected so far. */
  lemma WalkStep(side: Side, limit: int, taker: OrderId, quantity: int, q: seq<Order>, fills: seq<FillEvent>)
    requires quantity > 0 && q != [] && Crosses(side, limit, q[0].request.price)
    ensures
      var traded := Min(quantity, q[0].remaining);
      var fill := FillEvent(q[0].request.id, taker, traded, q[0].request.price);
      Prepend(fills, Walk(side, limit, taker, quantity, q)) ==
      Prepend(fills + [fill], Walk(side, limit, taker, quantity - traded,
                                   if traded == q[0].remaining then q[1..] else [AfterFill(q[0], traded)] + q[1..]))
  {
    var traded := Min(quantity, q[0].remaining);
    var fill := FillEvent(q[0].request.id, taker, traded, q[0].request.price);
    if traded == q[0].remaining {
      var rest := Walk(side, limit, taker, quantity - traded, q[1..]);
      assert fills + ([fill] + rest.fills) == fills + [fill] + rest.fills;
    } else {
      assert fills + [fill] + [] == fills + [fill];
    }
  }

  lemma WalkDone(side: Side, limit: int, taker: OrderId, quantity: int, q: seq<Order>)
    requires quantity <= 0 || q == []
    ensures Walk(side, limit, taker, quantity, q) == WalkResult([], q, quantity)
  {
  }

  /** The index keys of a list of records. */
  ghost function Keys(nodes: seq<OrderRecord>): set<U64> {
    set r | r in nodes :: Encode(r.request.id)
  }

  lemma KeysStep(nodes: seq<OrderRecord>, n: nat, index: map<U64, OrderRecord>)
    requires n < |nodes|
    ensures index - Keys(nodes[..n]) - {Encode(nodes[n].request.id)} == index - Keys(nodes[..n + 1])
    ensures nodes[n..][0] == nodes[n] && nodes[n..][1..] == nodes[n + 1..]
  {
    assert nodes[..n + 1] == nodes[..n] + [nodes[n]];
    assert Keys(nodes[..n + 1]) == Keys(nodes[..n]) + {Encode(nodes[n].request.id)};
  }
}
