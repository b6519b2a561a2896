/** One side of the book as a queue: the orders in priority order, and the level totals. It is the contract the
    engines ask of a book. The red-black tree and its lists meet it step by step until a removal rotates around
    the sentinel (BookRuns), so what is proved of the engines here is proved of the engine with its trees for
    the runs in which that never happens (MarketTrees), and there are runs in which it does
    (MarketTreesBreak). That the third engine's own kind of book meets it is taken for granted. */
module BookSides {
  import opened Orders
  import opened Priority
  import opened PriceLevels
  import opened Market

  ghost predicate UniqueIds(s: seq<Order>) {
    forall i, j :: 0 <= i < j < |s| ==> s[i].id != s[j].id
  }

  lemma UniqueInsert(s: seq<Order>, n: nat, o: Order)
    requires n <= |s| && UniqueIds(s) && forall i :: 0 <= i < |s| ==> s[i].id != o.id
    ensures UniqueIds(InsertAt(s, n, o))
  {
  }

  lemma InsertMembers(s: seq<Order>, n: nat, o: Order)
    requires n <= |s|
    ensures forall x :: x in InsertAt(s, n, o) <==> x in s || x == o
  {
    assert InsertAt(s, n, o) == s[..n] + [o] + s[n..];
    assert s == s[..n] + s[n..];
  }

  class BookSide {
    const side: Side
    var queue: seq<Order>
    var totals: map<int, int>
    ghost var since: map<int, int>
    ghost var view: seq<Ord>

    constructor (side: Side)
      ensures this.side == side && Valid() && Half() == EMPTY_HALF
    {
      this.side, queue, totals, since, view := side, [], map[], map[], [];
    }

    /** Orders of this side, each once, each id once. */
    ghost predicate Valid()
      reads this`queue, this`view, queue`filled, queue`remaining, queue`status, queue`timestamp, queue`sequence
    {
      Mirrors(queue, view) && UniqueIds(queue) && forall i :: 0 <= i < |queue| ==> queue[i].side == side
    }

    ghost function Half(): Half
      reads this`view, this`totals, this`since
    {
      Market.Half(view, totals, since)
    }

    /** How many orders stand ahead of a newcomer. */
    method Place(order: Order) returns (n: nat)
      requires Valid()
      ensures n <= |queue| && n == Position(side.Buy?, OrdKeys(view), KeyOf(order))
    {
      n := 0;
      while n < |queue| && !Ahead(side.Buy?, KeyOf(order), KeyOf(queue[n]))
        invariant n <= |queue|
        invariant forall i :: 0 <= i < n ==> !Ahead(side.Buy?, KeyOf(order), OrdKeys(view)[i])
      {
        n := n + 1;
      }
      assert n < |queue| ==> OrdKeys(view)[n] == KeyOf(queue[n]);
    }

    /** Put the order at its place, ahead of everyone it comes before. */
    method Enqueue(order: Order, n: nat)
      requires Valid() && order.side == side && n <= |queue| && forall i :: 0 <= i < |queue| ==> queue[i].id != order.id
      modifies this`queue, this`view
      ensures Valid() && queue == InsertAt(old(queue), n, order)
      ensures view == InsertAt(old(view), n, order.View())
    {
      MirrorsInsert(queue, view, n, order);
      UniqueInsert(queue, n, order);
      queue, view := InsertAt(queue, n, order), InsertAt(view, n, order.View());
    }

    method Insert(order: Order)
      requires Valid() && order.side == side && forall i :: 0 <= i < |queue| ==> queue[i].id != order.id
      modifies this`queue, this`totals, this`since, this`view
      ensures Valid() && Half() == WithOrder(side.Buy?, old(Half()), order.View())
      ensures forall o :: o in queue <==> o in old(queue) || o == order
    {
      var n := Place(order);
      InsertMembers(queue, n, order);
      Enqueue(order, n);
      since := if order.price in totals then since else since[order.price := 0];
      totals := AddTo(totals, order.price, order.remaining);
    }

    /** The first order has traded: bring the record of its fields up to date. */
    ghost method Follow(order: Order)
      requires queue != [] && queue[0] == order && |view| == |queue| && Mirrors(queue[1..], view[1..])
      requires UniqueIds(queue) && forall i :: 0 <= i < |queue| ==> queue[i].side == side
      modifies this`view
      ensures Valid() && view == [order.View()] + old(view)[1..]
    {
      view := [order.View()] + view[1..];
      assert forall i :: 1 <= i < |queue| ==> queue[i] == queue[1..][i - 1] && view[i] == view[1..][i - 1];
    }

    method Remove(order: Order, ghost i: nat)
      requires Valid() && i < |queue| && queue[i] == order
      modifies this`queue, this`totals, this`since, this`view
      ensures Valid() && queue == Without(old(queue), i)
      ensures Half() == WithoutOrder(old(Half()), i)
    {
      MirrorsWithout(queue, view, i);
      var k :| 0 <= k < |queue| && queue[k] == order;
      totals := TakeFrom(totals, order.price, order.remaining);
      since := Restricted(since, totals.Keys);
      queue, view := Without(queue, k), Without(view, k);
    }
  }
}
