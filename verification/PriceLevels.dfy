/** The FIFO list of orders kept at each price. */
module PriceLevels {
  import opened Orders

  datatype PriceLevel = PriceLevel(price: int, total: int, first: Order?, last: Order?)

  /** The list at one price, oldest order first, and the volume traded there since the level was made. */
  datatype Line = Line(orders: seq<Order>, traded: int)
  type Queues = map<int, Line>

  const NO_LINE := Line([], 0)

  /** `order` joins the back of the list at its price. */
  ghost function Enqueued(q: Queues, order: Order): Queues {
    var line := if order.price in q then q[order.price] else NO_LINE;
    q[order.price := line.(orders := line.orders + [order])]
  }

  /** The `i`-th order leaves the list at price `p`; a list with nobody left is dropped if nothing was
      traded there. */
  ghost function Dequeued(q: Queues, p: int, i: nat): Queues
    requires p in q && i < |q[p].orders|
  {
    if |q[p].orders| == 1 && q[p].traded == 0 then q - {p}
    else q[p := q[p].(orders := Without(q[p].orders, i))]
  }

  /** `s` with its `i`-th element taken out. */
  function Without<T>(s: seq<T>, i: nat): (r: seq<T>)
    requires i < |s|
    ensures |r| == |s| - 1 && forall k :: 0 <= k < |r| ==> r[k] == if k < i then s[k] else s[k + 1]
    ensures forall x :: x in r ==> x in s
  {
    s[..i] + s[i + 1..]
  }

  function Total(s: seq<Order>): int
    reads s`remaining
  {
    if s == [] then 0 else s[0].remaining + Total(s[1..])
  }

  /** The list links of `s` spell out `s`, both ways. */
  ghost predicate Chained(s: seq<Order>)
    reads s`prev, s`next
  {
    && (forall i {:trigger s[i].prev} :: 0 <= i < |s| ==> s[i].prev == if i == 0 then null else s[i - 1])
    && (forall i {:trigger s[i].next} :: 0 <= i < |s| ==> s[i].next == if i + 1 == |s| then null else s[i + 1])
  }

  /** `l` is the level of price `p` and `s` its list. The total is what remains of the orders and what was
      traded; an order with nothing remaining has been traded with. */
  ghost predicate LevelShows(l: PriceLevel, p: int, s: Line)
    reads (set o | o in s.orders)`prev, (set o | o in s.orders)`next, (set o | o in s.orders)`remaining
  {
    && l == PriceLevel(p, Total(s.orders) + s.traded, First(s.orders), Last(s.orders))
    && Chained(s.orders) && s.traded >= 0
    && forall o {:trigger o in s.orders} :: o in s.orders ==>
         o.price == p && o.remaining >= 0 && (o.remaining == 0 ==> s.traded > 0)
  }

  ghost predicate LevelOf(l: PriceLevel, p: int, s: Line)
    reads (set o | o in s.orders)`prev, (set o | o in s.orders)`next, (set o | o in s.orders)`remaining
  {
    LevelShows(l, p, s) && s != NO_LINE
  }

  ghost function First(s: seq<Order>): Order? { if s == [] then null else s[0] }
  ghost function Last(s: seq<Order>): Order? { if s == [] then null else s[|s| - 1] }

  ghost predicate Unique(s: seq<Order>) {
    forall i, j :: 0 <= i < j < |s| ==> s[i] != s[j]
  }

  /** No order occurs twice in a chain: the two would have to be followed by the same orders. */
  lemma ChainedUnique(s: seq<Order>)
    requires Chained(s)
    ensures Unique(s)
  {
    forall i, j | 0 <= i < j < |s| ensures s[i] != s[j] { ChainedApart(s, i, j); }
  }

  lemma {:induction false} ChainedApart(s: seq<Order>, i: nat, j: nat)
    requires Chained(s) && i < j < |s|
    ensures s[i] != s[j]
    decreases |s| - j
  {
    if s[i] == s[j] {
      assert s[i].next == s[i + 1];
      if j + 1 < |s| { ChainedApart(s, i + 1, j + 1); }
    }
  }

  lemma {:induction false} TotalAppend(s: seq<Order>, t: seq<Order>)
    ensures Total(s + t) == Total(s) + Total(t)
  {
    if s == [] {
      assert s + t == t;
    } else {
      assert (s + t)[1..] == s[1..] + t;
      TotalAppend(s[1..], t);
    }
  }

  lemma {:induction false} TotalPositive(s: seq<Order>)
    requires forall o :: o in s ==> o.remaining >= 0
    ensures Total(s) >= 0
    ensures s != [] && (forall o :: o in s ==> o.remaining > 0) ==> Total(s) > 0
  {
    if s != [] { TotalPositive(s[1..]); }
  }

  /** A level that stands has a positive total. */
  lemma LevelPositive(l: PriceLevel, p: int, s: Line)
    requires LevelShows(l, p, s)
    ensures l.total >= 0 && (l.total == 0 <==> s == NO_LINE)
  {
    TotalPositive(s.orders);
  }

  /** Taking one order out of a list takes exactly its remaining quantity out of the total. */
  lemma TotalWithout(s: seq<Order>, i: nat)
    requires i < |s|
    ensures Total(Without(s, i)) == Total(s) - s[i].remaining
  {
    assert s == s[..i] + ([s[i]] + s[i + 1..]);
    TotalAppend(s[..i], [s[i]] + s[i + 1..]);
    TotalAppend(s[..i], s[i + 1..]);
  }

  /** The total follows the one order whose remaining quantity changed. */
  twostate lemma {:induction false} TotalChanged(k: (seq<Order>, Order))
    requires k.1 in k.0 && Unique(k.0)
    requires forall o :: o in k.0 && o != k.1 ==> o.remaining == old(o.remaining)
    ensures Total(k.0) == old(Total(k.0)) - old(k.1.remaining) + k.1.remaining
    decreases |k.0|
  {
    if k.0[0] == k.1 {
      assert forall o :: o in k.0[1..] ==> o != k.1;
      assert Total(k.0[1..]) == old(Total(k.0[1..]));
    } else {
      TotalChanged((k.0[1..], k.1));
    }
  }

  lemma {:induction false} TotalAbove(s: seq<Order>, order: Order)
    requires order in s && forall o :: o in s ==> o.remaining >= 0
    ensures Total(s) >= order.remaining
  {
    TotalPositive(s[1..]);
    if s[0] != order { TotalAbove(s[1..], order); }
  }

  /** The level after `order` joined the back of its list. */
  method Append(level: PriceLevel, order: Order, ghost s: Line) returns (level': PriceLevel)
    requires LevelShows(level, order.price, s) && order !in s.orders && order.remaining > 0
    modifies order`prev, order`next, if s.orders == [] then {} else {s.orders[|s.orders| - 1]}`next
    ensures LevelOf(level', order.price, s.(orders := s.orders + [order]))
    ensures level'.total == level.total + order.remaining
  {
    ChainedUnique(s.orders);
    level' := level;
    if level.first == null {
      level' := level'.(first := order, last := order);
      order.prev := null;
      order.next := null;
    } else {
      order.prev := level.last;
      order.next := null;
      level.last.next := order;
      level' := level'.(last := order);
    }
    level' := level'.(total := level'.total + order.remaining);
    TotalAppend(s.orders, [order]);
    ghost var s' := s.orders + [order];
    assert forall i :: 0 <= i < |s.orders| ==> s'[i] == s.orders[i];
    assert Chained(s');
    assert Total([order]) == order.remaining;
  }

  /** Take the `i`-th order out of the chain `s`, and out of the level's two ends. */
  method Bypass(level: PriceLevel, order: Order, ghost s: seq<Order>, ghost i: nat) returns (level': PriceLevel)
    requires Chained(s) && Unique(s)
    requires i < |s| && s[i] == order && level.first == First(s) && level.last == Last(s)
    modifies s`prev, s`next
    ensures Chained(Without(s, i))
    ensures level' == level.(first := First(Without(s, i)), last := Last(Without(s, i)))
  {
    ghost var s' := Without(s, i);
    level' := level;
    if order.prev != null {
      order.prev.next := order.next;
    } else {
      level' := level'.(first := order.next);
    }
    if order.next != null {
      order.next.prev := order.prev;
    } else {
      level' := level'.(last := order.prev);
    }
  }

  /** The level after its `i`-th order left the list. Its total is zero when nothing keeps it. */
  method Unlink(level: PriceLevel, order: Order, ghost s: Line, ghost i: nat) returns (level': PriceLevel)
    requires LevelOf(level, order.price, s) && i < |s.orders| && s.orders[i] == order
    modifies s.orders`prev, s.orders`next
    ensures LevelShows(level', order.price, s.(orders := Without(s.orders, i)))
    ensures level'.total == level.total - order.remaining
    ensures level'.total >= 0 && (level'.total == 0 <==> |s.orders| == 1 && s.traded == 0)
  {
    ChainedUnique(s.orders);
    level' := Bypass(level, order, s.orders, i);
    level' := level'.(total := level'.total - order.remaining);
    TotalWithout(s.orders, i);
    TotalPositive(Without(s.orders, i));
    if level'.total < 0 {
      level' := level'.(total := 0);
    }
    LevelPositive(level', order.price, s.(orders := Without(s.orders, i)));
  }
}
