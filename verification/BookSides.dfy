/**
 One side of a market's book: the price-ordered map of levels, as the sequence
 of its entries in key order.  `ladder` is its value, `records` the set of all
 order records linked into its levels.
 */
module BookSides {
  import opened Common
  import opened OrderBook
  import opened Ladder
  import opened PriceLevels

  datatype Entry = Entry(price: int, level: PriceLevel)

  /** The lower bound of a price in a map whose keys are ordered by the side's comparator. */
  function LowerBound(side: Side, entries: seq<Entry>, price: int): (i: nat)
    ensures i <= |entries|
    ensures forall j :: 0 <= j < i ==> Better(side, entries[j].price, price)
    ensures i < |entries| ==> !Better(side, entries[i].price, price)
  {
    if entries == [] || !Better(side, entries[0].price, price) then 0
    else 1 + LowerBound(side, entries[1..], price)
  }

  ghost predicate HasLevel(entries: seq<Entry>, level: PriceLevel) {
    exists i :: 0 <= i < |entries| && entries[i].level == level
  }

  class BookSide {
    const side: Side
    var entries: seq<Entry>
    ghost var ladder: seq<Row>
    ghost var levels: set<PriceLevel>
    ghost var home: map<OrderRecord, PriceLevel>

    constructor (s: Side)
      ensures Valid() && side == s && ladder == [] && levels == {} && home == map[]
    {
      side, entries, ladder, levels, home := s, [], [], {}, map[];
    }

    /** Entry i holds a well-formed level whose contents are row i of the ladder. */
    ghost predicate EntryOk(i: int)
      reads this, levels, home.Keys
    {
      && 0 <= i < |entries| && i < |ladder|
      && entries[i].level in levels
      && entries[i].price == ladder[i].price
      && (forall n :: n in entries[i].level.nodes ==> n in home && home[n] == entries[i].level && n.request.side == side)
      && entries[i].level.Valid()
      && entries[i].level.orders == ladder[i].orders
    }

    /** The record is linked into its home level, and that level is in the map. */
    ghost predicate Holds(r: OrderRecord)
      reads this, levels
    {
      r in home && home[r] in levels && HasLevel(entries, home[r]) && r in home[r].nodes
    }

    ghost predicate Valid()
      reads this, levels, home.Keys
    {
      && |ladder| == |entries|
      && RowsOk(side, ladder)
      && (forall i :: 0 <= i < |entries| ==> EntryOk(i))
      && (forall i, j :: 0 <= i < j < |entries| ==> entries[i].level != entries[j].level)
      && (forall r :: r in home ==> Holds(r))
    }

    ghost function Repr(): set<object>
      reads this
    {
      {this} + levels + home.Keys
    }

    /** The ladder tells every level of the map: its price, its records' contents in order, and its cached totals. */
    lemma LadderTells(i: nat)
      requires Valid() && i < |entries|
      ensures i < |ladder| && |entries| == |ladder| && entries[i].price == ladder[i].price
      ensures var level := entries[i].level;
              && PriceLevel.Shows(level.nodes, ladder[i].orders)
              && level.totalQty == SumRemaining(ladder[i].orders) && level.visibleQty == SumShown(ladder[i].orders)
    {
      assert EntryOk(i);
    }

    lemma SlotOfLowerBound(price: int)
      requires Valid()
      ensures IsSlot(side, ladder, price, LowerBound(side, entries, price))
    {
      var i := LowerBound(side, entries, price);
      forall j | 0 <= j < |ladder|
        ensures j < i <==> Better(side, ladder[j].price, price)
      {
        assert EntryOk(j);
        if i <= j {
          assert EntryOk(i);
        }
      }
    }

    /** `try_emplace` found the level: append to it. */
    method RestInLevel(record: OrderRecord, i: nat)
      requires Valid() && record !in home && record.request.side == side
      requires i < |entries| && entries[i].price == record.request.price
      requires entries[i].level in levels
      modifies this, entries[i].level, entries[i].level.nodes, record
      ensures Valid() && home == old(home)[record := old(entries[i].level)] && levels == old(levels)
      ensures ladder == old(ladder)[i := Row(old(ladder)[i].price, old(ladder)[i].orders + [record.View()])]
      ensures record.View() == old(record.View())
    {
      hide PriceLevel.Linked, SumRemaining, SumShown, RowsOk, Better;
      assert EntryOk(i);
      entries[i].level.PushBack(record);
      forall j | 0 <= j < |entries| && j != i
        ensures EntryOk(j)
      {
        assert old(EntryOk(j));
      }
      forall r | r in home
        ensures Holds(r)
      {
        assert old(Holds(r));
      }
      hide EntryOk, Holds, PriceLevel.Valid;
      Adopt(i, record);
    }

    /** Level i has just gained a record at its end; everything else is in order. */
    ghost predicate Grown(i: int, record: OrderRecord)
      reads this, levels, home.Keys, record
    {
      && 0 <= i < |entries| == |ladder|
      && RowsOk(side, ladder)
      && entries[i].price == ladder[i].price == record.request.price
      && (forall j :: 0 <= j < |entries| && j != i ==> EntryOk(j))
      && (forall j, k :: 0 <= j < k < |entries| ==> entries[j].level != entries[k].level)
      && entries[i].level in levels && record !in home && record.request.side == side
      && record in entries[i].level.nodes
      && (forall n :: n in entries[i].level.nodes && n != record ==> n in home && home[n] == entries[i].level && n.request.side == side)
      && entries[i].level.Valid() && entries[i].level.orders == ladder[i].orders + [record.View()]
      && (forall r :: r in home ==> Holds(r))
    }

    /** Take the new record of level i into the ghost state. */
    ghost method Adopt(i: nat, record: OrderRecord)
      requires Grown(i, record)
      modifies `home, `ladder
      ensures Valid() && home == old(home)[record := entries[i].level]
      ensures ladder == old(ladder)[i := Row(old(ladder)[i].price, old(ladder)[i].orders + [record.View()])]
    {
      hide PriceLevel.Linked, PriceLevel.Shows, SumRemaining, SumShown, Better, RowsOk;
      ghost var level, row := entries[i].level, Row(ladder[i].price, ladder[i].orders + [record.View()]);
      RowsOkWithOrder(side, ladder, i, record.View());
      home, ladder := home[record := level], ladder[i := row];
      forall j | 0 <= j < |entries|
        ensures EntryOk(j)
      {
        assert j != i ==> old(EntryOk(j));
      }
      forall r | r in home
        ensures Holds(r)
      {
        assert r != record ==> old(Holds(r));
        assert HasLevel(entries, level);
      }
    }

    /** Everything is in order but for a level that is not in the map yet, and its one record. */
    ghost predicate Expecting(level: PriceLevel, record: OrderRecord)
      reads this, levels, home.Keys
    {
      && |ladder| == |entries|
      && RowsOk(side, ladder)
      && (forall i :: 0 <= i < |entries| ==> EntryOk(i) && entries[i].level != level)
      && (forall i, j :: 0 <= i < j < |entries| ==> entries[i].level != entries[j].level)
      && record in home && home[record] == level && record.request.side == side
      && level in levels && level.nodes == [record] && level.orders == [record.View()] && level.Valid()
      && (forall r :: r in home && r != record ==> Holds(r))
    }

    ghost method Announce(level: PriceLevel, record: OrderRecord)
      requires Valid() && record !in home && record.request.side == side
      requires level !in levels && level.Valid() && level.nodes == [record] && level.orders == [record.View()]
      modifies `levels, `home
      ensures Expecting(level, record) && home == old(home)[record := level] && levels == old(levels) + {level}
    {
      hide PriceLevel.Valid, Better, RowsOk;
      levels, home := levels + {level}, home[record := level];
      forall i | 0 <= i < |entries|
        ensures EntryOk(i) && entries[i].level != level
      {
        assert old(EntryOk(i));
      }
      forall r | r in home && r != record
        ensures Holds(r)
      {
        assert old(Holds(r));
      }
    }

    /** `try_emplace` puts a new level at its place in the key order. */
    method AddLevel(level: PriceLevel, record: OrderRecord, i: nat)
      requires Valid() && record !in home && record.request.side == side
      requires level !in levels && level.Valid() && level.nodes == [record] && level.orders == [record.View()]
      requires i == LowerBound(side, entries, record.request.price)
      requires i < |entries| ==> entries[i].price != record.request.price
      modifies this
      ensures Valid() && home == old(home)[record := level] && levels == old(levels) + {level}
      ensures ladder == Inserted(old(ladder), i, Row(record.request.price, [record.View()]))
    {
      hide PriceLevel.Valid, Inserted, Better, RowsOk, IsSlot;
      SlotOfLowerBound(record.request.price);
      var row := Row(record.request.price, [record.View()]);
      assert i < |entries| ==> EntryOk(i);
      RowsOkInsertRow(side, ladder, i, row);
      Announce(level, record);
      Splice(level, record, i);
    }

    /** Insert the entry; the ghost state already expects it. */
    method Splice(level: PriceLevel, record: OrderRecord, i: nat)
      requires Expecting(level, record) && i <= |entries|
      requires RowsOk(side, Inserted(ladder, i, Row(record.request.price, [record.View()])))
      modifies `entries, `ladder
      ensures Valid()
      ensures ladder == Inserted(old(ladder), i, Row(record.request.price, [record.View()]))
    {
      hide PriceLevel.Valid, Inserted, Better, RowsOk;
      var entry := Entry(record.request.price, level);
      var row := Row(record.request.price, [record.View()]);
      ghost var es, rs := entries, ladder;
      entries, ladder := Inserted(entries, i, entry), Inserted(ladder, i, row);
      forall j | 0 <= j < |entries|
        ensures EntryOk(j) && (j != i ==> entries[j].level != level)
      {
        InsertedAt(es, i, entry, j);
        InsertedAt(rs, i, row, j);
        if j != i {
          assert old(EntryOk(if j < i then j else j - 1));
        }
      }
      forall j, k | 0 <= j < k < |entries|
        ensures entries[j].level != entries[k].level
      {
        InsertedAt(es, i, entry, j);
        InsertedAt(es, i, entry, k);
      }
      forall r | r in home
        ensures Holds(r)
      {
        if r == record {
          InsertedAt(es, i, entry, i);
          assert entries[i].level == level;
        } else {
          assert old(Holds(r));
          HasLevelInserted(es, i, entry, home[r]);
        }
      }
    }

    /** `rest_order`: append the record to the level of its price, creating the level when there is none. */
    method Rest(record: OrderRecord)
      requires Valid() && record !in home && record.request.side == side
      modifies Repr(), record
      ensures Valid() && home.Keys == old(home.Keys) + {record}
      ensures old(levels) <= levels && fresh(levels - old(levels))
      ensures Flatten(ladder) == Insert(side, old(Flatten(ladder)), record.View())
      ensures record.View() == old(record.View())
    {
      hide PriceLevel.Linked, PriceLevel.Shows, SumRemaining, SumShown, Flatten, Insert;
      var price := record.request.price;
      var i := LowerBound(side, entries, price);
      SlotOfLowerBound(price);
      assert i < |entries| ==> EntryOk(i);
      if i < |entries| && entries[i].price == price {
        InsertInRow(side, ladder, i, record.View());
        RestInLevel(record, i);
      } else {
        InsertNewRow(side, ladder, i, record.View());
        var level := new PriceLevel();
        level.PushBack(record);
        AddLevel(level, record, i);
        assert levels - old(levels) == {level};
      }
    }

    /**
     Level i has just lost the records in `gone`; the map itself has not been updated yet.
     Everything else is in order.
     */
    ghost predicate Stale(i: int, gone: set<OrderRecord>)
      reads this, levels, home.Keys
    {
      && 0 <= i < |entries| == |ladder|
      && RowsOk(side, ladder)
      && entries[i].price == ladder[i].price
      && (forall j :: 0 <= j < |entries| && j != i ==> EntryOk(j))
      && (forall j, k :: 0 <= j < k < |entries| ==> entries[j].level != entries[k].level)
      && entries[i].level in levels
      && (forall n :: n in entries[i].level.nodes ==>
            n in home && home[n] == entries[i].level && n.request.side == side && n !in gone)
      && entries[i].level.Valid()
      && (forall k :: 0 <= k < |entries[i].level.orders| ==> entries[i].level.orders[k].request.price == entries[i].price)
      && (forall r :: r in gone ==> r in home && home[r] == entries[i].level)
      && (forall r :: r in home && r !in gone ==> Holds(r))
    }

    /** Erase level i if it has become empty. */
    method Settle(i: nat, ghost gone: set<OrderRecord>)
      requires Stale(i, gone)
      modifies this
      ensures Valid() && home == old(home) - gone && levels == old(levels)
      ensures var left := old(entries[i].level.orders);
              if left == [] then
                entries == old(entries)[..i] + old(entries)[i + 1..] && ladder == old(ladder)[..i] + old(ladder)[i + 1..]
              else
                entries == old(entries) && ladder == old(ladder)[i := Row(old(ladder)[i].price, left)]
    {
      hide PriceLevel.Linked, PriceLevel.Shows, SumRemaining, SumShown, Better, RowsOk, EntryOk, Holds;
      ghost var level := entries[i].level;
      level.HeadTells();
      if entries[i].level.Empty() {
        DropLevel(i, gone);
      } else {
        KeepLevel(i, gone);
      }
    }

    method DropLevel(i: nat, ghost gone: set<OrderRecord>)
      requires Stale(i, gone) && entries[i].level.orders == [] && entries[i].level.nodes == []
      modifies `entries, `ladder, `home
      ensures Valid() && home == old(home) - gone
      ensures entries == old(entries)[..i] + old(entries)[i + 1..] && ladder == old(ladder)[..i] + old(ladder)[i + 1..]
    {
      hide PriceLevel.Linked, PriceLevel.Shows, SumRemaining, SumShown, Better;
      ghost var es := entries;
      RowsOkWithoutRow(side, ladder, i);
      hide RowsOk;
      entries, ladder := entries[..i] + entries[i + 1..], ladder[..i] + ladder[i + 1..];
      home := home - gone;
      forall j | 0 <= j < |entries|
        ensures EntryOk(j)
      {
        assert old(EntryOk(if j < i then j else j + 1));
      }
      forall r | r in home
        ensures Holds(r)
      {
        assert old(Holds(r));
        HasLevelRemoved(es, i, home[r]);
      }
    }

    /** A level that still has orders stays; only the ghost state follows it. */
    ghost method KeepLevel(i: nat, gone: set<OrderRecord>)
      requires Stale(i, gone) && entries[i].level.orders != []
      modifies `ladder, `home
      ensures Valid() && home == old(home) - gone
      ensures ladder == old(ladder)[i := Row(old(ladder)[i].price, entries[i].level.orders)]
    {
      hide PriceLevel.Linked, PriceLevel.Shows, SumRemaining, SumShown, Better;
      ghost var row := Row(ladder[i].price, entries[i].level.orders);
      RowsOkWithRow(side, ladder, i, row);
      hide RowsOk;
      ladder, home := ladder[i := row], home - gone;
      forall j | 0 <= j < |entries|
        ensures EntryOk(j)
      {
        assert j != i ==> old(EntryOk(j));
      }
      forall r | r in home
        ensures Holds(r)
      {
        assert old(Holds(r));
      }
    }

    /** A record is found where the map lookup by its price leads. */
    lemma Locate(record: OrderRecord) returns (k: nat)
      requires Valid() && record in home
      ensures var i := LowerBound(side, entries, record.request.price);
              && i < |entries| && EntryOk(i) && entries[i].price == record.request.price
              && entries[i].level == home[record]
              && k < |entries[i].level.nodes| && entries[i].level.nodes[k] == record
              && k < |ladder[i].orders| && ladder[i].orders[k] == record.View()
    {
      hide PriceLevel.Linked, SumRemaining, SumShown;
      assert Holds(record);
      var j :| 0 <= j < |entries| && entries[j].level == home[record];
      assert EntryOk(j);
      k :| 0 <= k < |entries[j].level.nodes| && entries[j].level.nodes[k] == record;
      assert RowOk(ladder[j]);
      assert ladder[j].orders[k] == record.View();
      SlotOfLowerBound(record.request.price);
    }

    /** Unlink a record from its level; the map itself is not updated yet. */
    method TakeFromLevel(record: OrderRecord, i: nat, ghost k: nat)
      requires Valid() && record in home && i < |entries| && EntryOk(i)
      requires k < |entries[i].level.nodes| && entries[i].level.nodes[k] == record
      modifies entries[i].level, entries[i].level.nodes
      ensures Stale(i, {record})
      ensures var o := old(entries[i].level.orders); entries[i].level.orders == o[..k] + o[k + 1..]
    {
      hide PriceLevel.Linked, SumRemaining, SumShown, Better;
      var level := entries[i].level;
      assert RowOk(ladder[i]);
      level.Remove(record, k);
      forall j | 0 <= j < |entries| && j != i
        ensures EntryOk(j)
      {
        assert old(EntryOk(j));
      }
      forall r | r in home && r != record
        ensures Holds(r)
      {
        assert old(Holds(r));
      }
    }

    /** `remove_order_from_book`: unlink a record and drop its level when that was the last one. */
    method Take(record: OrderRecord) returns (ghost p: nat)
      requires Valid() && record in home
      modifies Repr()
      ensures Valid() && home.Keys == old(home.Keys) - {record} && levels == old(levels)
      ensures var q := old(Flatten(ladder));
              p < |q| && q[p] == old(record.View()) && Flatten(ladder) == q[..p] + q[p + 1..]
    {
      hide PriceLevel.Linked, SumRemaining, SumShown, Better, Flatten, RowsOk;
      // The early returns of the source cannot be taken: a record of the book
      // has a level, and the level is found under its price.
      ghost var k := Locate(record);
      var i := LowerBound(side, entries, record.request.price);
      RemoveFromRow(ladder, i, k);
      p := |Flatten(ladder[..i])| + k;
      ghost var q := Flatten(ladder);
      assert p < |q| && q[p] == record.View();
      hide EntryOk, Stale, Holds;
      TakeFromLevel(record, i, k);
      Settle(i, {record});
    }

    /** Run the inner matching loop on the best level. */
    method DrainBest(taker: OrderRecord, index: map<U64, OrderRecord>)
      returns (fills: seq<FillEvent>, index': map<U64, OrderRecord>, ghost gone: set<OrderRecord>)
      requires Valid() && taker !in home && entries != []
      requires Crosses(taker.request.side, taker.request.price, entries[0].price)
      modifies levels, home.Keys, taker`remaining
      ensures Stale(0, gone) && gone <= home.Keys
      ensures index' == index - KeySet(gone)
      ensures WalkResult(fills, entries[0].level.orders, taker.remaining) ==
              Walk(taker.request.side, taker.request.price, taker.request.id, old(taker.remaining), ladder[0].orders)
    {
      hide PriceLevel.Linked, SumRemaining, SumShown, Better, Walk;
      var level := entries[0].level;
      assert EntryOk(0) && RowOk(ladder[0]);
      hide RowsOk;
      ghost var nodes := level.nodes;
      forall n: nat | n <= |nodes|
        ensures forall r :: r in nodes[..n] ==> r !in nodes[n..]
      {
        level.NodesDistinct(n);
      }
      WalkPrices(taker.request.side, taker.request.price, taker.request.id, taker.remaining, level.orders, entries[0].price);
      ghost var spent;
      fills, index', spent := level.Consume(taker, entries[0].price, index);
      gone := set r | r in nodes[..spent];
      assert KeySet(gone) == Keys(nodes[..spent]);
      assert forall r :: r in nodes <==> r in nodes[..spent] || r in nodes[spent..];
      forall j | 0 <= j < |entries| && j != 0
        ensures EntryOk(j)
      {
        assert old(EntryOk(j));
      }
      forall r | r in home && r !in gone
        ensures Holds(r)
      {
        assert old(Holds(r));
      }
    }

    /** Match the taker against the best level and move on if that level is exhausted. */
    method ConsumeBest(taker: OrderRecord, index: map<U64, OrderRecord>)
      returns (fills: seq<FillEvent>, index': map<U64, OrderRecord>)
      requires Valid() && taker !in home && entries != []
      requires Crosses(taker.request.side, taker.request.price, entries[0].price)
      modifies Repr(), taker`remaining
      ensures Valid() && home.Keys <= old(home.Keys) && levels == old(levels)
      ensures index' == index - KeySet(old(home.Keys) - home.Keys)
      ensures Walk(taker.request.side, taker.request.price, taker.request.id, old(taker.remaining), old(Flatten(ladder)))
              == Prepend(fills, Walk(taker.request.side, taker.request.price, taker.request.id, taker.remaining, Flatten(ladder)))
      ensures taker.remaining > 0 ==> |entries| < |old(entries)|
    {
      hide PriceLevel.Linked, PriceLevel.Shows, SumRemaining, SumShown, Better, Flatten, Walk;
      assert EntryOk(0) && RowOk(ladder[0]);
      ghost var rows, quantity := ladder, taker.remaining;
      WalkLadder(taker.request.side, taker.request.price, taker.request.id, quantity, rows);
      ghost var gone;
      fills, index', gone := DrainBest(taker, index);
      Settle(0, gone);
      assert rows[..0] + rows[1..] == rows[1..];
      assert old(home.Keys) - home.Keys == gone;
    }

    /** The outer matching loop: consume levels from the best price on, while they cross. */
    method Consume(taker: OrderRecord, index: map<U64, OrderRecord>, ghost all: set<OrderRecord>)
      returns (fills: seq<FillEvent>, index': map<U64, OrderRecord>)
      requires Valid() && taker !in home && side == Opposite(taker.request.side)
      requires home.Keys <= all && IndexOk(index, all)
      modifies Repr(), taker`remaining
      ensures Valid() && home.Keys <= old(home.Keys) && levels == old(levels)
      ensures IndexOk(index', all - (old(home.Keys) - home.Keys))
      ensures WalkResult(fills, Flatten(ladder), taker.remaining) ==
              Walk(taker.request.side, taker.request.price, taker.request.id, old(taker.remaining), old(Flatten(ladder)))
    {
      hide PriceLevel.Linked, PriceLevel.Shows, SumRemaining, SumShown, Better, Flatten, Walk, IndexOk;
      fills, index' := [], index;
      ghost var side, limit, id := taker.request.side, taker.request.price, taker.request.id;
      ghost var goal, records := Walk(side, limit, id, taker.remaining, Flatten(ladder)), home.Keys;
      var it := 0;
      while taker.remaining > 0 && it < |entries|
        invariant Valid() && levels == old(levels) && home.Keys <= records
        invariant taker.remaining > 0 ==> it == 0
        invariant index' == index - KeySet(records - home.Keys)
        invariant goal == Prepend(fills, Walk(side, limit, id, taker.remaining, Flatten(ladder)))
        decreases taker.remaining > 0, |entries|
      {
        if !Crosses(taker.request.side, taker.request.price, entries[it].price) {
          break;
        }
        var more, size := [], |entries|;
        ghost var here, w := home.Keys, Walk(side, limit, id, taker.remaining, Flatten(ladder));
        more, index' := ConsumeBest(taker, index');
        fills := fills + more;
        if |entries| == size {
          it := it + 1;
        }
        KeySetMinus(index, records, here, home.Keys);
      }
      assert entries != [] ==> EntryOk(0);
      WalkStops(side, limit, id, taker.remaining, ladder);
      IndexOkMinus(index, all, records - home.Keys);
    }

    /** Sum the cached level totals from the best price on, stopping as soon as `quantity` is covered. */
    method FillableQuantity(taker: Side, limit: int, quantity: int) returns (total: int)
      requires Valid() && side == Opposite(taker)
      requires forall k :: 0 <= k < |Flatten(ladder)| ==> Flatten(ladder)[k].remaining > 0
      ensures total >= quantity <==> Fillable(taker, limit, Flatten(ladder)) >= quantity
    {
      hide PriceLevel.Linked, PriceLevel.Shows, SumRemaining, SumShown, Flatten, Fillable;
      total := 0;
      ghost var all := Fillable(taker, limit, Flatten(ladder));
      var i := 0;
      assert ladder[0..] == ladder;
      while i < |entries|
        invariant i <= |entries|
        invariant total + Fillable(taker, limit, Flatten(ladder[i..])) == all
      {
        assert EntryOk(i);
        if !Crosses(taker, limit, entries[i].price) {
          break;
        }
        total := total + entries[i].level.totalQty;
        FillableSplit(taker, limit, ladder, i);
        if total >= quantity {
          FlattenSuffix(ladder, i + 1);
          FillableNonNegative(taker, limit, Flatten(ladder[i + 1..]));
          return;
        }
        i := i + 1;
      }
      assert i < |entries| ==> EntryOk(i);
      FillableStops(taker, limit, ladder, i);
    }

    /** The best price of the map is the price at the head of the queue. */
    lemma BestPrice()
      requires Valid()
      ensures (entries == []) == (Flatten(ladder) == [])
      ensures entries != [] ==> Flatten(ladder)[0].request.price == entries[0].price
    {
      if entries != [] {
        assert EntryOk(0) && RowOk(ladder[0]);
        FlattenHead(ladder);
      }
    }

    lemma SideOf(record: OrderRecord)
      requires Valid() && record in home
      ensures record.request.side == side
    {
      assert Holds(record);
      var i :| 0 <= i < |entries| && entries[i].level == home[record];
      assert EntryOk(i);
    }

    /** Every record of the side is in the queue. */
    lemma RecordQueued(record: OrderRecord) returns (p: nat)
      requires Valid() && record in home
      ensures p < |Flatten(ladder)| && Flatten(ladder)[p] == record.View()
    {
      var k := Locate(record);
      var i := LowerBound(side, entries, record.request.price);
      FlattenHas(ladder, i, k);
      p :| 0 <= p < |Flatten(ladder)| && Flatten(ladder)[p] == record.View();
    }

    /** Every queued order is a record of the side. */
    lemma QueuedRecord(p: nat) returns (record: OrderRecord)
      requires Valid() && p < |Flatten(ladder)|
      ensures record in home && record.request == Flatten(ladder)[p].request
    {
      var i, k := FlattenFrom(ladder, Flatten(ladder)[p]);
      assert EntryOk(i);
      record := entries[i].level.nodes[k];
      assert record in entries[i].level.nodes && record.View() == ladder[i].orders[k];
    }
  }

  ghost function KeySet(records: set<OrderRecord>): set<U64> {
    set r | r in records :: Encode(r.request.id)
  }

  /** The index maps the encoded id of each record to that record, and nothing else. */
  ghost predicate IndexOk(index: map<U64, OrderRecord>, records: set<OrderRecord>) {
    && (forall key :: key in index ==> Encode(index[key].request.id) == key && index[key] in records)
    && (forall r :: r in records ==> Encode(r.request.id) in index && index[Encode(r.request.id)] == r)
  }

  lemma IndexOkMinus(index: map<U64, OrderRecord>, records: set<OrderRecord>, gone: set<OrderRecord>)
    requires IndexOk(index, records) && gone <= records
    ensures IndexOk(index - KeySet(gone), records - gone)
  {
    var left := index - KeySet(gone);
    forall r | r in records - gone
      ensures Encode(r.request.id) in left && left[Encode(r.request.id)] == r
    {
      assert forall g :: g in gone ==> index[Encode(g.request.id)] == g;
    }
  }

  lemma IndexOkMinusOne(index: map<U64, OrderRecord>, a: set<OrderRecord>, b: set<OrderRecord>, r: OrderRecord)
    requires IndexOk(index, a + b) && r in a + b
    ensures IndexOk(index - {Encode(r.request.id)}, (a - {r}) + (b - {r}))
  {
    IndexOkMinus(index, a + b, {r});
    assert KeySet({r}) == {Encode(r.request.id)};
    assert (a - {r}) + (b - {r}) == (a + b) - {r};
  }

  lemma IndexOkPlus(index: map<U64, OrderRecord>, records: set<OrderRecord>, r: OrderRecord)
    requires IndexOk(index, records) && Encode(r.request.id) !in index
    ensures IndexOk(index[Encode(r.request.id) := r], records + {r})
  {
  }

  lemma KeySetMinus(index: map<U64, OrderRecord>, all: set<OrderRecord>, some: set<OrderRecord>, few: set<OrderRecord>)
    requires few <= some <= all
    ensures index - KeySet(all - some) - KeySet(some - few) == index - KeySet(all - few)
  {
    assert KeySet(all - few) == KeySet(all - some) + KeySet(some - few) by {
      assert all - few == (all - some) + (some - few);
    }
  }

  lemma HasLevelInserted(entries: seq<Entry>, i: nat, e: Entry, level: PriceLevel)
    requires i <= |entries| && HasLevel(entries, level)
    ensures HasLevel(Inserted(entries, i, e), level)
  {
    var j :| 0 <= j < |entries| && entries[j].level == level;
    assert Inserted(entries, i, e)[if j < i then j else j + 1].level == level;
  }

  lemma HasLevelRemoved(entries: seq<Entry>, i: nat, level: PriceLevel)
    requires i < |entries| && HasLevel(entries, level) && entries[i].level != level
    ensures HasLevel(entries[..i] + entries[i + 1..], level)
  {
    var j :| 0 <= j < |entries| && entries[j].level == level;
    assert (entries[..i] + entries[i + 1..])[if j < i then j else j - 1].level == level;
  }
}
