/**
 The middle layer between the flat queue and the heap: one row of orders per
 price, rows in priority order.  Concatenating the rows gives the flat queue.
 */
module Ladder {
  import opened Common
  import opened OrderBook

  datatype Row = Row(price: int, orders: seq<Order>)

  /** A sequence with x put in at position i. */
  function Inserted<T>(s: seq<T>, i: nat, x: T): (r: seq<T>)
    requires i <= |s|
    ensures |r| == |s| + 1
  {
    s[..i] + [x] + s[i..]
  }

  lemma InsertedAt<T>(s: seq<T>, i: nat, x: T, j: nat)
    requires i <= |s| && j <= |s|
    ensures Inserted(s, i, x)[j] == if j < i then s[j] else if j == i then x else s[j - 1]
  {
  }

  function Flatten(rows: seq<Row>): seq<Order> {
    if rows == [] then [] else rows[0].orders + Flatten(rows[1..])
  }

  predicate RowOk(row: Row) {
    row.orders != [] && forall k :: 0 <= k < |row.orders| ==> row.orders[k].request.price == row.price
  }

  predicate RowsOk(side: Side, rows: seq<Row>) {
    && (forall i :: 0 <= i < |rows| ==> RowOk(rows[i]))
    && (forall i, j :: 0 <= i < j < |rows| ==> Better(side, rows[i].price, rows[j].price))
  }

  lemma RowsOkWithRow(side: Side, rows: seq<Row>, i: nat, row: Row)
    requires RowsOk(side, rows) && i < |rows| && RowOk(row) && row.price == rows[i].price
    ensures RowsOk(side, rows[i := row])
  {
  }

  lemma RowsOkWithOrder(side: Side, rows: seq<Row>, i: nat, order: Order)
    requires RowsOk(side, rows) && i < |rows| && order.request.price == rows[i].price
    ensures RowsOk(side, rows[i := Row(rows[i].price, rows[i].orders + [order])])
  {
    assert RowOk(rows[i]);
    RowsOkWithRow(side, rows, i, Row(rows[i].price, rows[i].orders + [order]));
  }

  lemma RowsOkWithoutRow(side: Side, rows: seq<Row>, i: nat)
    requires RowsOk(side, rows) && i < |rows|
    ensures RowsOk(side, rows[..i] + rows[i + 1..])
  {
  }

  lemma RowsOkInsertRow(side: Side, rows: seq<Row>, i: nat, row: Row)
    requires RowsOk(side, rows) && RowOk(row) && IsSlot(side, rows, row.price, i)
    requires i < |rows| ==> rows[i].price != row.price
    ensures RowsOk(side, Inserted(rows, i, row))
  {
    if i < |rows| {
      assert Better(side, row.price, rows[i].price);
    }
  }

  lemma {:induction false} FlattenAppend(a: seq<Row>, b: seq<Row>)
    ensures Flatten(a + b) == Flatten(a) + Flatten(b)
  {
    if a == [] {
      assert a + b == b;
    } else {
      assert (a + b)[1..] == a[1..] + b;
      FlattenAppend(a[1..], b);
    }
  }

  /** A ladder split around its row i. */
  lemma FlattenAround(rows: seq<Row>, i: nat)
    requires i < |rows|
    ensures Flatten(rows) == Flatten(rows[..i]) + rows[i].orders + Flatten(rows[i + 1..])
  {
    assert rows == rows[..i] + rows[i..];
    FlattenAppend(rows[..i], rows[i..]);
    assert rows[i..][1..] == rows[i + 1..];
  }

  lemma FlattenWithRow(rows: seq<Row>, i: nat, row: Row)
    requires i < |rows|
    ensures Flatten(rows[i := row]) == Flatten(rows[..i]) + row.orders + Flatten(rows[i + 1..])
  {
    var changed := rows[i := row];
    FlattenAround(changed, i);
    assert changed[..i] == rows[..i] && changed[i + 1..] == rows[i + 1..];
  }

  lemma FlattenWithoutRow(rows: seq<Row>, i: nat)
    requires i < |rows|
    ensures Flatten(rows[..i] + rows[i + 1..]) == Flatten(rows[..i]) + Flatten(rows[i + 1..])
  {
    FlattenAppend(rows[..i], rows[i + 1..]);
  }

  lemma FlattenInsertRow(rows: seq<Row>, i: nat, row: Row)
    requires i <= |rows|
    ensures Flatten(Inserted(rows, i, row)) == Flatten(rows[..i]) + row.orders + Flatten(rows[i..])
  {
    var changed := Inserted(rows, i, row);
    FlattenAround(changed, i);
    assert changed[..i] == rows[..i] && changed[i + 1..] == rows[i..];
  }

  // ----- membership -----

  lemma {:induction false} FlattenHas(rows: seq<Row>, i: nat, k: nat)
    requires i < |rows| && k < |rows[i].orders|
    ensures rows[i].orders[k] in Flatten(rows)
  {
    FlattenAround(rows, i);
    assert rows[i].orders[k] in rows[i].orders;
  }

  lemma {:induction false} FlattenFrom(rows: seq<Row>, o: Order) returns (i: nat, k: nat)
    requires o in Flatten(rows)
    ensures i < |rows| && k < |rows[i].orders| && rows[i].orders[k] == o
  {
    if o in rows[0].orders {
      i := 0;
      k :| 0 <= k < |rows[0].orders| && rows[0].orders[k] == o;
    } else {
      var i', k' := FlattenFrom(rows[1..], o);
      i, k := i' + 1, k';
    }
  }

  lemma FlattenSuffix(rows: seq<Row>, i: nat)
    requires i <= |rows|
    ensures forall k :: 0 <= k < |Flatten(rows[i..])| ==> Flatten(rows[i..])[k] in Flatten(rows)
  {
    assert rows == rows[..i] + rows[i..];
    FlattenAppend(rows[..i], rows[i..]);
  }

  // ----- matching one row at a time -----

  /** Walking A followed by B is walking A and then, with what is left, B. */
  lemma {:induction false} WalkAppend(side: Side, limit: int, taker: OrderId, quantity: int, a: seq<Order>, b: seq<Order>)
    requires forall k :: 0 <= k < |a| ==> Crosses(side, limit, a[k].request.price)
    ensures
      var wa := Walk(side, limit, taker, quantity, a);
      var wb := Walk(side, limit, taker, wa.remaining, b);
      Walk(side, limit, taker, quantity, a + b) == WalkResult(wa.fills + wb.fills, wa.left + wb.left, wb.remaining)
    decreases |a|, 1
  {
    var w := Walk(side, limit, taker, quantity, a + b);
    var wa := Walk(side, limit, taker, quantity, a);
    var wb := Walk(side, limit, taker, wa.remaining, b);
    if a == [] {
      assert a + b == b;
      assert wa.fills + wb.fills == wb.fills && wa.left + wb.left == wb.left;
    } else {
      assert (a + b)[0] == a[0] && (a + b)[1..] == a[1..] + b;
      if quantity <= 0 {
        assert wa == WalkResult([], a, quantity) && wb == WalkResult([], b, quantity);
        assert wa.fills + wb.fills == [];
      } else {
        WalkAppendStep(side, limit, taker, quantity, a, b);
      }
    }
  }

  /** The step of WalkAppend: one maker is traded against. */
  lemma {:induction false} WalkAppendStep(side: Side, limit: int, taker: OrderId, quantity: int, a: seq<Order>, b: seq<Order>)
    requires a != [] && quantity > 0
    requires forall k :: 0 <= k < |a| ==> Crosses(side, limit, a[k].request.price)
    ensures
      var wa := Walk(side, limit, taker, quantity, a);
      var wb := Walk(side, limit, taker, wa.remaining, b);
      Walk(side, limit, taker, quantity, a + b) == WalkResult(wa.fills + wb.fills, wa.left + wb.left, wb.remaining)
    decreases |a|, 0
  {
    assert (a + b)[0] == a[0] && (a + b)[1..] == a[1..] + b;
    var traded := Min(quantity, a[0].remaining);
    var fill := FillEvent(a[0].request.id, taker, traded, a[0].request.price);
    if traded == a[0].remaining {
      WalkAppend(side, limit, taker, quantity - traded, a[1..], b);
      var wr := Walk(side, limit, taker, quantity - traded, a[1..]);
      var wb := Walk(side, limit, taker, wr.remaining, b);
      assert [fill] + wr.fills + wb.fills == [fill] + (wr.fills + wb.fills);
    } else {
      var changed := AfterFill(a[0], traded);
      assert [changed] + a[1..] + b == [changed] + (a[1..] + b);
      assert [fill] + [] == [fill];
    }
  }

  /** A walk stops at a queue whose head does not cross. */
  lemma WalkStops(side: Side, limit: int, taker: OrderId, quantity: int, rows: seq<Row>)
    requires RowsOk(Opposite(side), rows)
    requires quantity <= 0 || rows == [] || !Crosses(side, limit, rows[0].price)
    ensures Walk(side, limit, taker, quantity, Flatten(rows)) == WalkResult([], Flatten(rows), quantity)
  {
    if rows != [] {
      assert RowOk(rows[0]);
      assert Flatten(rows)[0] == rows[0].orders[0];
    }
  }

  /** A row of positive makers that the walk leaves non-empty exhausts the taker. */
  lemma {:induction false} WalkLeavesRow(side: Side, limit: int, taker: OrderId, quantity: int, a: seq<Order>)
    requires forall k :: 0 <= k < |a| ==> Crosses(side, limit, a[k].request.price)
    ensures Walk(side, limit, taker, quantity, a).left != [] ==> Walk(side, limit, taker, quantity, a).remaining <= 0
    decreases |a|
  {
    if a != [] && quantity > 0 && Min(quantity, a[0].remaining) == a[0].remaining {
      WalkLeavesRow(side, limit, taker, quantity - a[0].remaining, a[1..]);
    }
  }

  /** A walk leaves the prices of a row alone. */
  lemma {:induction false} WalkPrices(side: Side, limit: int, taker: OrderId, quantity: int, q: seq<Order>, price: int)
    requires forall k :: 0 <= k < |q| ==> q[k].request.price == price
    ensures var left := Walk(side, limit, taker, quantity, q).left;
            forall k :: 0 <= k < |left| ==> left[k].request.price == price
    decreases |q|
  {
    if quantity > 0 && q != [] && Crosses(side, limit, q[0].request.price) {
      var traded := Min(quantity, q[0].remaining);
      if traded == q[0].remaining {
        assert Walk(side, limit, taker, quantity, q).left == Walk(side, limit, taker, quantity - traded, q[1..]).left;
        WalkPrices(side, limit, taker, quantity - traded, q[1..], price);
      } else {
        assert AfterFill(q[0], traded).request == q[0].request;
      }
    }
  }

  /** Walking a ladder whose best row crosses: first that row, then the rest. */
  lemma WalkLadder(side: Side, limit: int, taker: OrderId, quantity: int, rows: seq<Row>)
    requires rows != [] && RowOk(rows[0]) && Crosses(side, limit, rows[0].price)
    ensures
      var w := Walk(side, limit, taker, quantity, rows[0].orders);
      && (w.left == [] ==>
            Walk(side, limit, taker, quantity, Flatten(rows))
            == Prepend(w.fills, Walk(side, limit, taker, w.remaining, Flatten(rows[1..]))))
      && (w.left != [] ==>
            && w.remaining <= 0
            && Walk(side, limit, taker, quantity, Flatten(rows))
               == Prepend(w.fills, Walk(side, limit, taker, w.remaining, Flatten(rows[0 := Row(rows[0].price, w.left)]))))
  {
    var w := Walk(side, limit, taker, quantity, rows[0].orders);
    var rest := Flatten(rows[1..]);
    WalkAppend(side, limit, taker, quantity, rows[0].orders, rest);
    WalkLeavesRow(side, limit, taker, quantity, rows[0].orders);
    if w.left == [] {
      assert w.left + Walk(side, limit, taker, w.remaining, rest).left == Walk(side, limit, taker, w.remaining, rest).left;
    } else {
      assert rows[0 := Row(rows[0].price, w.left)][1..] == rows[1..];
    }
  }

  /** A walk result with fills that came before it. */
  ghost function Prepend(fills: seq<FillEvent>, w: WalkResult): WalkResult {
    WalkResult(fills + w.fills, w.left, w.remaining)
  }

  // ----- cached totals -----

  function SumRemaining(q: seq<Order>): int {
    if q == [] then 0 else q[0].remaining + SumRemaining(q[1..])
  }

  function SumShown(q: seq<Order>): int {
    if q == [] then 0 else q[0].displayRemaining + SumShown(q[1..])
  }

  lemma {:induction false} SumsAppend(a: seq<Order>, b: seq<Order>)
    ensures SumRemaining(a + b) == SumRemaining(a) + SumRemaining(b)
    ensures SumShown(a + b) == SumShown(a) + SumShown(b)
  {
    if a == [] {
      assert a + b == b;
    } else {
      assert (a + b)[1..] == a[1..] + b;
      SumsAppend(a[1..], b);
    }
  }

  lemma SumsAround(q: seq<Order>, k: nat)
    requires k < |q|
    ensures SumRemaining(q) == SumRemaining(q[..k]) + q[k].remaining + SumRemaining(q[k + 1..])
    ensures SumShown(q) == SumShown(q[..k]) + q[k].displayRemaining + SumShown(q[k + 1..])
  {
    assert q == q[..k] + q[k..];
    SumsAppend(q[..k], q[k..]);
    assert q[k..][1..] == q[k + 1..];
  }

  lemma SumsRemoved(q: seq<Order>, k: nat)
    requires k < |q|
    ensures SumRemaining(q[..k] + q[k + 1..]) == SumRemaining(q) - q[k].remaining
    ensures SumShown(q[..k] + q[k + 1..]) == SumShown(q) - q[k].displayRemaining
  {
    SumsAround(q, k);
    SumsAppend(q[..k], q[k + 1..]);
  }

  lemma SumsUpdated(q: seq<Order>, k: nat, o: Order)
    requires k < |q|
    ensures SumRemaining(q[k := o]) == SumRemaining(q) - q[k].remaining + o.remaining
    ensures SumShown(q[k := o]) == SumShown(q) - q[k].displayRemaining + o.displayRemaining
  {
    SumsAround(q, k);
    SumsAround(q[k := o], k);
    assert q[k := o][..k] == q[..k] && q[k := o][k + 1..] == q[k + 1..];
  }

  // ----- fillable quantity: a row at a time -----

  lemma {:induction false} FillableAppend(side: Side, limit: int, a: seq<Order>, b: seq<Order>)
    requires forall k :: 0 <= k < |a| ==> Crosses(side, limit, a[k].request.price)
    ensures Fillable(side, limit, a + b) == SumRemaining(a) + Fillable(side, limit, b)
  {
    if a == [] {
      assert a + b == b;
    } else {
      assert (a + b)[1..] == a[1..] + b;
      FillableAppend(side, limit, a[1..], b);
    }
  }

  lemma {:induction false} FillableNonNegative(side: Side, limit: int, q: seq<Order>)
    requires forall k :: 0 <= k < |q| ==> q[k].remaining >= 0
    ensures Fillable(side, limit, q) >= 0
  {
    if q != [] {
      FillableNonNegative(side, limit, q[1..]);
    }
  }

  /** The first i rows cross: their totals come off the front of the fillable quantity. */
  lemma FillableSplit(side: Side, limit: int, rows: seq<Row>, i: nat)
    requires RowsOk(Opposite(side), rows) && i < |rows|
    requires Crosses(side, limit, rows[i].price)
    ensures Fillable(side, limit, Flatten(rows[i..])) == SumRemaining(rows[i].orders) + Fillable(side, limit, Flatten(rows[i + 1..]))
  {
    assert RowOk(rows[i]);
    assert rows[i..][0] == rows[i] && rows[i..][1..] == rows[i + 1..];
    FillableAppend(side, limit, rows[i].orders, Flatten(rows[i + 1..]));
  }

  lemma FillableStops(side: Side, limit: int, rows: seq<Row>, i: nat)
    requires RowsOk(Opposite(side), rows) && i <= |rows|
    requires i < |rows| ==> !Crosses(side, limit, rows[i].price)
    ensures Fillable(side, limit, Flatten(rows[i..])) == 0
  {
    if i < |rows| {
      assert RowOk(rows[i]);
      assert Flatten(rows[i..])[0] == rows[i].orders[0];
    }
  }

  // ----- resting: where a price belongs -----

  /** `i` is the place of `price` in the row order: better rows before it, the rest from it on. */
  predicate IsSlot(side: Side, rows: seq<Row>, price: int, i: nat) {
    && i <= |rows|
    && (forall j :: 0 <= j < i ==> Better(side, rows[j].price, price))
    && (forall j :: i <= j < |rows| ==> !Better(side, rows[j].price, price))
  }

  lemma {:induction false} InsertPast(side: Side, a: seq<Order>, b: seq<Order>, o: Order)
    requires forall k :: 0 <= k < |a| ==> !Better(side, o.request.price, a[k].request.price)
    ensures Insert(side, a + b, o) == a + Insert(side, b, o)
  {
    if a == [] {
      assert a + b == b;
    } else {
      assert (a + b)[1..] == a[1..] + b;
      InsertPast(side, a[1..], b, o);
    }
  }

  lemma {:induction false} FlattenPrices(side: Side, rows: seq<Row>, price: int)
    requires forall i :: 0 <= i < |rows| ==> RowOk(rows[i]) && !Better(side, price, rows[i].price)
    ensures forall k :: 0 <= k < |Flatten(rows)| ==> !Better(side, price, Flatten(rows)[k].request.price)
  {
    if rows != [] {
      assert RowOk(rows[0]);
      FlattenPrices(side, rows[1..], price);
    }
  }

  lemma FlattenHead(rows: seq<Row>)
    requires rows != [] && RowOk(rows[0])
    ensures Flatten(rows) != [] && Flatten(rows)[0].request.price == rows[0].price
  {
  }

  lemma InsertBetween(side: Side, a: seq<Order>, b: seq<Order>, o: Order)
    requires forall k :: 0 <= k < |a| ==> !Better(side, o.request.price, a[k].request.price)
    requires b == [] || Better(side, o.request.price, b[0].request.price)
    ensures Insert(side, a + b, o) == a + [o] + b
  {
    InsertPast(side, a, b, o);
    assert a + ([o] + b) == a + [o] + b;
  }

  lemma JoinRow<T>(a: seq<T>, r: seq<T>, o: T, b: seq<T>)
    ensures a + (r + [o]) + b == (a + r) + [o] + b
  {
  }

  /** Appending to the existing row of a price is insertion by time priority. */
  lemma InsertInRow(side: Side, rows: seq<Row>, i: nat, o: Order)
    requires RowsOk(side, rows) && IsSlot(side, rows, o.request.price, i)
    requires i < |rows| && rows[i].price == o.request.price
    ensures Flatten(rows[i := Row(rows[i].price, rows[i].orders + [o])]) == Insert(side, Flatten(rows), o)
  {
    var a, r, b := Flatten(rows[..i]), rows[i].orders, Flatten(rows[i + 1..]);
    assert RowOk(rows[i]);
    FlattenPrices(side, rows[..i], o.request.price);
    if i + 1 < |rows| {
      assert RowOk(rows[i + 1]);
      FlattenHead(rows[i + 1..]);
    }
    InsertBetween(side, a + r, b, o);
    JoinRow(a, r, o, b);
    assert Flatten(rows) == a + r + b by { FlattenAround(rows, i); }
    FlattenWithRow(rows, i, Row(rows[i].price, r + [o]));
  }

  /** A new row at the slot of its price is insertion by time priority. */
  lemma InsertNewRow(side: Side, rows: seq<Row>, i: nat, o: Order)
    requires RowsOk(side, rows) && IsSlot(side, rows, o.request.price, i)
    requires i < |rows| ==> rows[i].price != o.request.price
    ensures Flatten(Inserted(rows, i, Row(o.request.price, [o]))) == Insert(side, Flatten(rows), o)
  {
    var a, b := Flatten(rows[..i]), Flatten(rows[i..]);
    FlattenPrices(side, rows[..i], o.request.price);
    if i < |rows| {
      assert RowOk(rows[i]);
      FlattenHead(rows[i..]);
    }
    InsertBetween(side, a, b, o);
    assert Flatten(rows) == a + b by {
      FlattenAppend(rows[..i], rows[i..]);
      assert rows == rows[..i] + rows[i..];
    }
    FlattenInsertRow(rows, i, Row(o.request.price, [o]));
  }

  // ----- removal -----

  /** Removing the only order with an id from its place is `Without`. */
  lemma WithoutAt(q: seq<Order>, k: nat, id: OrderId)
    requires k < |q| && q[k].request.id == id
    requires forall i, j :: 0 <= i < j < |q| ==> q[i].request.id != q[j].request.id
    ensures HasId(q, id) && IndexOf(q, id) == k
    ensures Without(q, id) == q[..k] + q[k + 1..]
  {
    assert HasId(q, id);
    var i := IndexOf(q, id);
    assert i == k;
  }

  /** Dropping order k of row i from the ladder drops one place of the flat queue. */
  lemma RemoveFromRow(rows: seq<Row>, i: nat, k: nat)
    requires i < |rows| && k < |rows[i].orders|
    ensures
      var o := rows[i].orders;
      var p := |Flatten(rows[..i])| + k;
      var q := Flatten(rows);
      && p < |q| && q[p] == o[k]
      && Flatten(rows[i := Row(rows[i].price, o[..k] + o[k + 1..])]) == q[..p] + q[p + 1..]
      && (|o| == 1 ==> Flatten(rows[..i] + rows[i + 1..]) == q[..p] + q[p + 1..])
  {
    var o := rows[i].orders;
    FlattenAround(rows, i);
    FlattenWithRow(rows, i, Row(rows[i].price, o[..k] + o[k + 1..]));
    FlattenWithoutRow(rows, i);
    RemoveInMiddle(Flatten(rows[..i]), o, Flatten(rows[i + 1..]), k);
  }

  lemma RemoveInMiddle<T>(a: seq<T>, o: seq<T>, b: seq<T>, k: nat)
    requires k < |o|
    ensures
      var q := a + o + b;
      var p := |a| + k;
      && q[p] == o[k]
      && a + (o[..k] + o[k + 1..]) + b == q[..p] + q[p + 1..]
      && (|o| == 1 ==> a + b == q[..p] + q[p + 1..])
  {
    var q, p := a + o + b, |a| + k;
    assert q[..p] == a + o[..k];
    assert q[p + 1..] == o[k + 1..] + b;
    assert |o| == 1 ==> o[..k] == [] && o[k + 1..] == [];
  }

  // ----- a queue has only one ladder -----

  /** How many orders at the front of a queue have this price. */
  function Leading(q: seq<Order>, price: int): nat {
    if q == [] || q[0].request.price != price then 0 else 1 + Leading(q[1..], price)
  }

  lemma {:induction false} LeadingRun(a: seq<Order>, b: seq<Order>, price: int)
    requires forall k :: 0 <= k < |a| ==> a[k].request.price == price
    requires b != [] ==> b[0].request.price != price
    ensures Leading(a + b, price) == |a|
  {
    if a == [] {
      assert a + b == b;
    } else {
      assert (a + b)[1..] == a[1..] + b;
      LeadingRun(a[1..], b, price);
    }
  }

  /** The first row of a ladder is the run of orders with the first order's price. */
  lemma FirstRow(side: Side, rows: seq<Row>)
    requires RowsOk(side, rows) && rows != []
    ensures Flatten(rows) != [] && rows[0].price == Flatten(rows)[0].request.price
    ensures |rows[0].orders| == Leading(Flatten(rows), rows[0].price)
    ensures Flatten(rows) == rows[0].orders + Flatten(rows[1..]) && RowsOk(side, rows[1..])
  {
    assert RowOk(rows[0]);
    var rest := Flatten(rows[1..]);
    if |rows| > 1 {
      assert RowOk(rows[1]) && rows[1..][0] == rows[1];
      assert Better(side, rows[0].price, rows[1].price);
      assert rest[0] == rows[1].orders[0];
    }
    LeadingRun(rows[0].orders, rest, rows[0].price);
  }

  /** Two ladders with the same orders in the same order have the same levels. */
  lemma {:induction false} FlattenInjective(side: Side, r: seq<Row>, s: seq<Row>)
    requires RowsOk(side, r) && RowsOk(side, s) && Flatten(r) == Flatten(s)
    ensures r == s
  {
    hide RowsOk, Flatten, Leading;
    if r == [] || s == [] {
      NoRows(side, r);
      NoRows(side, s);
    } else {
      FirstRow(side, r);
      FirstRow(side, s);
      SplitAt(r[0].orders, Flatten(r[1..]), s[0].orders, Flatten(s[1..]));
      FlattenInjective(side, r[1..], s[1..]);
      assert r == [r[0]] + r[1..] && s == [s[0]] + s[1..];
    }
  }

  lemma NoRows(side: Side, rows: seq<Row>)
    requires RowsOk(side, rows)
    ensures rows == [] <==> Flatten(rows) == []
  {
    if rows != [] {
      FirstRow(side, rows);
    }
  }

  lemma SplitAt<T>(a: seq<T>, b: seq<T>, c: seq<T>, d: seq<T>)
    requires a + b == c + d && |a| == |c|
    ensures a == c && b == d
  {
    assert (a + b)[..|a|] == a && (c + d)[..|c|] == c;
    assert (a + b)[|a|..] == b && (c + d)[|c|..] == d;
  }
}
