/** Filling one side of the book with new orders, nothing else happening: the whole of what insertion
    promises, in terms of the arrivals. */
module BookFill {
  import opened Orders
  import opened Priority
  import opened PriceLevels
  import opened BookViews
  import opened TreeColours
  import opened OrderBook
  import Colours
  import RedBlack

  /** Orders the side accepts: each once, each with an id of its own. */
  ghost predicate Arrivals(orders: seq<Order>)
    reads (set o | o in orders)`remaining
  {
    && (forall i {:trigger orders[..i]} :: 0 <= i < |orders| ==> NewId(orders[..i], orders[i].id))
    && (forall o {:trigger o in orders} :: o in orders ==> o.price > 0 && o.quantity > 0 && o.remaining > 0)
  }

  ghost predicate NewId(orders: seq<Order>, id: nat) { forall o :: o in orders ==> o.id != id }

  lemma ArrivalsBefore(orders: seq<Order>)
    requires orders != [] && Arrivals(orders)
    ensures Arrivals(orders[..|orders| - 1]) && NewId(orders[..|orders| - 1], orders[|orders| - 1].id)
    ensures orders[|orders| - 1] in orders
  {
    var n := |orders| - 1;
    forall i | 0 <= i < n ensures NewId(orders[..n][..i], orders[..n][i].id) {
      assert orders[..n][..i] == orders[..i];
    }
    assert forall o :: o in orders[..n] ==> o in orders;
  }

  /** The orders in the sequence of their arrival numbers `q`. */
  ghost function Picked(orders: seq<Order>, q: seq<nat>): (s: seq<Order>)
    requires forall i :: 0 <= i < |q| ==> q[i] < |orders|
    ensures |s| == |q| && forall i :: 0 <= i < |q| ==> s[i] == orders[q[i]]
  {
    seq(|q|, i requires 0 <= i < |q| => orders[q[i]])
  }

  /** Among the orders of one price nobody was stamped earlier than one before it. */
  ghost predicate Timely(orders: seq<Order>, ks: seq<Key>)
    requires |ks| == |orders|
  {
    forall i, j :: 0 <= i < j < |orders| && orders[i].price == orders[j].price ==> ks[i].timestamp <= ks[j].timestamp
  }

  lemma PickedInsert(orders: seq<Order>, ks: seq<Key>, q: seq<nat>, m: nat)
    requires orders != [] && |ks| == |orders| && m <= |q| && forall i :: 0 <= i < |q| ==> q[i] < |orders| - 1
    ensures Picked(orders, InsertAt(q, m, |orders| - 1))
      == InsertAt(Picked(orders[..|orders| - 1], q), m, orders[|orders| - 1])
    ensures KeysAt(ks, InsertAt(q, m, |orders| - 1)) == InsertAt(KeysAt(ks[..|ks| - 1], q), m, ks[|ks| - 1])
  {
  }

  /** One more arrival is timely exactly when nobody at its price was stamped later. */
  lemma TimelyNext(orders: seq<Order>, ks: seq<Key>, q: seq<nat>)
    requires orders != [] && |ks| == |orders| && |q| == |orders| - 1 && forall i :: 0 <= i < |q| ==> q[i] < |orders| - 1
    requires forall n: nat :: n < |orders| - 1 ==> n in q
    ensures var n := |orders| - 1;
      Timely(orders, ks) <==>
        Timely(orders[..n], ks[..n]) && NotEarlier(Picked(orders[..n], q), KeysAt(ks[..n], q), orders[n], ks[n])
  {
    var n := |orders| - 1;
    if Timely(orders[..n], ks[..n]) && NotEarlier(Picked(orders[..n], q), KeysAt(ks[..n], q), orders[n], ks[n]) {
      forall i | 0 <= i < n && orders[i].price == orders[n].price ensures ks[i].timestamp <= ks[n].timestamp {
        var m: nat := i;
        assert m in q;
        var k :| 0 <= k < |q| && q[k] == m;
        assert Picked(orders[..n], q)[k] == orders[i];
      }
      forall i, j | 0 <= i < j < |orders| && orders[i].price == orders[j].price
        ensures ks[i].timestamp <= ks[j].timestamp
      {
        assert j < n ==> orders[..n][i] == orders[i] && orders[..n][j] == orders[j];
      }
    }
    if Timely(orders, ks) {
      forall i, j | 0 <= i < j < n && orders[..n][i].price == orders[..n][j].price
        ensures ks[..n][i].timestamp <= ks[..n][j].timestamp
      {
        assert orders[i].price == orders[j].price;
      }
    }
  }

  /** The last arrival takes its place among the others. */
  lemma ArrangedNext(buy: bool, ks: seq<Key>)
    requires ks != []
    ensures var n := |ks| - 1; var before := Arranged(buy, ks[..n]); var keys := KeysAt(ks[..n], before);
      Arranged(buy, ks) == InsertAt(before, Position(buy, keys, ks[n]), n)
  {
    var n := |ks| - 1;
    var before := Arranged(buy, ks[..n]);
    assert KeysAt(ks, before) == KeysAt(ks[..n], before);
  }

  lemma InsertedMembers(s: seq<nat>, m: nat, x: nat)
    requires m <= |s|
    ensures forall y :: y in InsertAt(s, m, x) <==> y in s || y == x
  {
    assert InsertAt(s, m, x) == s[..m] + [x] + s[m..];
    assert s == s[..m] + s[m..];
  }

  lemma {:induction false} EveryoneArranged(buy: bool, ks: seq<Key>)
    ensures |Arranged(buy, ks)| == |ks| && forall n: nat :: n < |ks| ==> n in Arranged(buy, ks)
  {
    if ks != [] {
      var n := |ks| - 1;
      var before := Arranged(buy, ks[..n]);
      var m := Position(buy, KeysAt(ks[..n], before), ks[n]);
      EveryoneArranged(buy, ks[..n]);
      ArrangedNext(buy, ks);
      InsertedMembers(before, m, n);
      forall y: nat | y < |ks| ensures y in Arranged(buy, ks) { assert y < n ==> y in before; }
    }
  }

  // ---- The side fills -----------------------------------------------------------------------

  /** What the side is after the arrivals `orders` with the keys `ks`. */
  ghost predicate Filled(side: OrderBookSide, orders: seq<Order>, ks: seq<Key>)
    requires |ks| == |orders|
    reads side, side.sentinel
  {
    && side.Contents() == Picked(orders, Arranged(side.isBuy, ks)) && side.keys == KeysAt(ks, Arranged(side.isBuy, ks))
    && (ListsFollow(side.queues, side.Contents()) <==> Timely(orders, ks))
    && RedBlack.RedBlackShape(Coloured(side.shape)) && !side.sentinel.red
  }

  lemma FilledNext(buy: bool, orders: seq<Order>, ks: seq<Key>)
    requires orders != [] && |ks| == |orders|
    ensures var n := |orders| - 1; var before := Arranged(buy, ks[..n]);
      var walk, keys := Picked(orders[..n], before), KeysAt(ks[..n], before);
      var m := Position(buy, keys, ks[n]);
      && |walk| == |keys| == n
      && InsertAt(walk, m, orders[n]) == Picked(orders, Arranged(buy, ks))
      && InsertAt(keys, m, ks[n]) == KeysAt(ks, Arranged(buy, ks))
      && (Timely(orders, ks) <==> Timely(orders[..n], ks[..n]) && NotEarlier(walk, keys, orders[n], ks[n]))
  {
    var n := |orders| - 1;
    var before := Arranged(buy, ks[..n]);
    ArrangedNext(buy, ks);
    EveryoneArranged(buy, ks[..n]);
    PickedInsert(orders, ks, before, Position(buy, KeysAt(ks[..n], before), ks[n]));
    TimelyNext(orders, ks, before);
  }

  ghost function Members(s: seq<Order>): set<Order> { set o | o in s }

  /** What is known of the next arrival before it joins. */
  lemma NextJoins(side: OrderBookSide, orders: seq<Order>)
    requires orders != [] && NewId(orders[..|orders| - 1], orders[|orders| - 1].id)
    requires side.Valid() && side.nodes == Members(orders[..|orders| - 1])
    ensures var o := orders[|orders| - 1]; o !in side.nodes && o.id !in side.orderMap
    ensures Members(orders) == side.nodes + {orders[|orders| - 1]}
  {
    var n := |orders| - 1;
    assert orders == orders[..n] + [orders[n]];
  }

  /** The last of the arrivals joins the others. */
  method JoinLast(side: OrderBookSide, orders: seq<Order>, ghost ks: seq<Key>)
    requires orders != [] && NewId(orders[..|orders| - 1], orders[|orders| - 1].id) && |ks| == |orders|
    requires var order := orders[|orders| - 1];
      KeyOf(order) == ks[|ks| - 1] && order.price > 0 && order.quantity > 0 && order.remaining > 0
    requires side.Valid() && Filled(side, orders[..|orders| - 1], ks[..|ks| - 1])
    requires side.nodes == Members(orders[..|orders| - 1]) && orders[|orders| - 1] != side.sentinel
    modifies side, Members(orders)`left, Members(orders)`right, Members(orders)`parent, Members(orders)`red,
             Members(orders)`prev, Members(orders)`next
    ensures side.Valid() && Filled(side, orders, ks) && side.nodes == Members(orders)
  {
    var order := orders[|orders| - 1];
    NextJoins(side, orders);
    FilledNext(side.isBuy, orders, ks);
    assert RedBlack.RedBlackShape(Grown(side.shape, Position(side.isBuy, side.keys, KeyOf(order)))) by {
      ColouredSize(side.shape);
      RedBlack.GrownRedBlack(Coloured(side.shape), Position(side.isBuy, side.keys, KeyOf(order)));
    }
    var ok := side.Insert(order);
  }

  /** New orders, put into an empty side one after the other: the tree is red-black, its walk is the arrivals
      in priority order with equal keys as they came, and the lists follow the walk exactly when no order
      was stamped earlier than one at its price before it. */
  method FillSide(buy: bool, orders: seq<Order>, ghost ks: seq<Key>) returns (side: OrderBookSide)
    requires Arrivals(orders) && KeysOf(orders, ks)
    modifies Members(orders)`left, Members(orders)`right, Members(orders)`parent, Members(orders)`red,
             Members(orders)`prev, Members(orders)`next
    ensures fresh(side) && fresh(side.sentinel) && side.isBuy == buy
    ensures side.Valid() && side.nodes == Members(orders) && Filled(side, orders, ks)
    decreases |orders|
  {
    if orders == [] {
      side := new OrderBookSide(buy);
    } else {
      ArrivalsBefore(orders);
      side := FillSide(buy, orders[..|orders| - 1], ks[..|ks| - 1]);
      JoinLast(side, orders, ks);
    }
  }

  /** Below 2^500 - 1 arrivals the best one is found, however deep it lies. */
  method FrontOfFilled(side: OrderBookSide, ghost orders: seq<Order>, ghost ks: seq<Key>) returns (best: Order?)
    requires |ks| == |orders| && side.Valid() && Filled(side, orders, ks)
    ensures best == null <==> orders == [] || Colours.LeftDepth(Coloured(side.shape)) >= 1000
    ensures orders != [] && |orders| + 1 < RedBlack.Pow2(500) ==> best == orders[Arranged(side.isBuy, ks)[0]]
  {
    best := side.BestOrder();
    ColouredSize(side.shape);
    if orders != [] { RedBlack.DepthWithinLimit(Coloured(side.shape)); }
  }
}
