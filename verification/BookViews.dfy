/** The tree walk and the per-price lists are two views of one set of orders. */
module BookViews {
  import opened Orders
  import opened PriceLevels
  import opened Priority
  import opened TreeShape

  /** The orders of `s` at one price, in the order of `s`. */
  ghost function AtPrice(s: seq<Order>, p: int): seq<Order> {
    if s == [] then [] else (if s[0].price == p then [s[0]] else []) + AtPrice(s[1..], p)
  }

  lemma {:induction false} AtPriceMembers(s: seq<Order>, p: int)
    ensures forall i :: 0 <= i < |AtPrice(s, p)| ==> AtPrice(s, p)[i] in s && AtPrice(s, p)[i].price == p
    ensures forall o :: o in s && o.price == p ==> o in AtPrice(s, p)
  {
    if s != [] { AtPriceMembers(s[1..], p); }
  }

  /** Each list is the walk restricted to its price. */
  ghost predicate ListsFollow(q: Queues, walk: seq<Order>) {
    && (forall p :: p in q ==> q[p].orders == AtPrice(walk, p))
    && forall o :: o in walk ==> o.price in q
  }

  lemma {:induction false} AtPriceConcat(s: seq<Order>, t: seq<Order>, p: int)
    ensures AtPrice(s + t, p) == AtPrice(s, p) + AtPrice(t, p)
  {
    if s == [] {
      assert s + t == t;
    } else {
      var head := if s[0].price == p then [s[0]] else [];
      assert (s + t)[0] == s[0] && (s + t)[1..] == s[1..] + t;
      AtPriceConcat(s[1..], t, p);
      assert head + (AtPrice(s[1..], p) + AtPrice(t, p)) == head + AtPrice(s[1..], p) + AtPrice(t, p);
    }
  }

  lemma AtPriceInsert(s: seq<Order>, n: nat, o: Order, p: int)
    requires n <= |s|
    ensures AtPrice(InsertAt(s, n, o), p)
      == AtPrice(s[..n], p) + (if o.price == p then [o] else []) + AtPrice(s[n..], p)
    ensures AtPrice(s, p) == AtPrice(s[..n], p) + AtPrice(s[n..], p)
  {
    AtPriceConcat(s[..n] + [o], s[n..], p);
    AtPriceConcat(s[..n], [o], p);
    AtPriceConcat(s[..n], s[n..], p);
    assert s[..n] + s[n..] == s;
    assert AtPrice([o], p) == if o.price == p then [o] else [];
  }

  /** Nobody at the newcomer's price was stamped later than the newcomer. */
  ghost predicate NotEarlier(s: seq<Order>, keys: seq<Key>, o: Order, k: Key)
    requires |keys| == |s|
  {
    forall i :: 0 <= i < |s| && s[i].price == o.price ==> keys[i].timestamp <= k.timestamp
  }

  lemma {:induction false} NoneAt(s: seq<Order>, p: int)
    requires forall i :: 0 <= i < |s| ==> s[i].price != p
    ensures AtPrice(s, p) == []
  {
    if s != [] { NoneAt(s[1..], p); }
  }

  lemma JumpsQueue(a: seq<Order>, o: Order, b: seq<Order>)
    requires b != [] && b[0] != o
    ensures a + [o] + b != a + b + [o]
  {
    assert (a + [o] + b)[|a|] == o && (a + b + [o])[|a|] == b[0];
  }

  /** Nobody of the newcomer's price ends up behind it if nobody was stamped later. */
  lemma NobodyBehind(buy: bool, s: seq<Order>, keys: seq<Key>, o: Order, k: Key)
    requires |keys| == |s| && Sorted(buy, keys) && k.price == o.price
    requires forall i :: 0 <= i < |s| ==> keys[i].price == s[i].price
    requires NotEarlier(s, keys, o, k)
    ensures AtPrice(s[Position(buy, keys, k)..], o.price) == []
  {
    var n := Position(buy, keys, k);
    InsertKeepsSorted(buy, keys, k);
    forall j | 0 <= j < |s[n..]| ensures s[n..][j].price != o.price {
      assert Ahead(buy, k, keys[n + j]);
    }
    NoneAt(s[n..], o.price);
  }

  /** Who at the newcomer's price ends up behind it. */
  lemma BehindNewcomer(buy: bool, s: seq<Order>, keys: seq<Key>, o: Order, k: Key)
    requires |keys| == |s| && Sorted(buy, keys) && k.price == o.price
    requires forall i :: 0 <= i < |s| ==> keys[i].price == s[i].price
    ensures AtPrice(s[Position(buy, keys, k)..], o.price) == [] <==> NotEarlier(s, keys, o, k)
  {
    if NotEarlier(s, keys, o, k) {
      NobodyBehind(buy, s, keys, o, k);
    } else {
      var n, p := Position(buy, keys, k), o.price;
      InsertKeepsSorted(buy, keys, k);
      AtPriceMembers(s[n..], p);
      var i :| 0 <= i < |s| && s[i].price == p && keys[i].timestamp > k.timestamp;
      assert Ahead(buy, k, keys[i]) && n <= i;
      assert s[n..][i - n] == s[i];
    }
  }

  /** Queueing by priority and queueing at the back of the list agree exactly when the newcomer's
      timestamp is no earlier than those already at its price. */
  lemma FifoExactlyWhenNotEarlier(buy: bool, s: seq<Order>, keys: seq<Key>, o: Order, k: Key)
    requires |keys| == |s| && Sorted(buy, keys) && o !in s && k.price == o.price
    requires forall i :: 0 <= i < |s| ==> keys[i].price == s[i].price
    ensures AtPrice(InsertAt(s, Position(buy, keys, k), o), o.price) == AtPrice(s, o.price) + [o]
            <==> NotEarlier(s, keys, o, k)
  {
    var n, p := Position(buy, keys, k), o.price;
    var a, b := AtPrice(s[..n], p), AtPrice(s[n..], p);
    AtPriceInsert(s, n, o, p);
    BehindNewcomer(buy, s, keys, o, k);
    AtPriceMembers(s[n..], p);
    if b != [] {
      assert b[0] in s[n..] && b[0] in s;
      JumpsQueue(a, o, b);
    }
  }

  /** With a clock that never runs backwards, the lists keep following the walk. */
  lemma InsertKeepsViews(buy: bool, q: Queues, s: seq<Order>, keys: seq<Key>, o: Order, k: Key)
    requires |keys| == |s| && Sorted(buy, keys) && o !in s && k.price == o.price
    requires forall i :: 0 <= i < |s| ==> keys[i].price == s[i].price
    requires ListsFollow(q, s)
    ensures ListsFollow(Enqueued(q, o), InsertAt(s, Position(buy, keys, k), o)) <==> NotEarlier(s, keys, o, k)
  {
    var n := Position(buy, keys, k);
    FifoExactlyWhenNotEarlier(buy, s, keys, o, k);
    forall p | p != o.price ensures AtPrice(InsertAt(s, n, o), p) == AtPrice(s, p) {
      AtPriceInsert(s, n, o, p);
    }
    EnqueuedFollows(q, s, InsertAt(s, n, o), o);
  }

  /** A list that does not follow the walk never will again, whoever joins. */
  lemma StrayedStays(q: Queues, s: seq<Order>, n: nat, o: Order)
    requires n <= |s| && o !in s && forall x :: x in s ==> x.price in q
    requires ListsFollow(Enqueued(q, o), InsertAt(s, n, o))
    ensures ListsFollow(q, s)
  {
    var s' := InsertAt(s, n, o);
    forall p | p in q ensures q[p].orders == AtPrice(s, p) {
      AtPriceInsert(s, n, o, p);
      if p == o.price {
        AtPriceMembers(s[n..], p);
        assert forall x :: x in s[n..] ==> x in s;
        SameEnds(q[p].orders, AtPrice(s[..n], p), AtPrice(s[n..], p), o);
      }
    }
  }

  lemma SameEnds(l: seq<Order>, a: seq<Order>, b: seq<Order>, o: Order)
    requires l + [o] == a + [o] + b && o !in b
    ensures l == a + b
  {
    var w := a + [o] + b;
    var last := w[|w| - 1];
    assert last == (l + [o])[|l|] == o;
    assert last == ([o] + b)[|b|];
    assert w[..|w| - 1] == l;
  }

  lemma EnqueuedList(q: Queues, s: seq<Order>, o: Order)
    requires ListsFollow(q, s)
    ensures Enqueued(q, o)[o.price].orders == AtPrice(s, o.price) + [o]
  {
    if o.price !in q {
      assert forall i :: 0 <= i < |s| ==> s[i] in s;
      NoneAt(s, o.price);
    }
  }

  lemma EnqueuedFollows(q: Queues, s: seq<Order>, s': seq<Order>, o: Order)
    requires ListsFollow(q, s) && o in s' && forall x :: x in s' ==> x == o || x in s
    requires forall p :: p != o.price ==> AtPrice(s', p) == AtPrice(s, p)
    ensures ListsFollow(Enqueued(q, o), s') <==> AtPrice(s', o.price) == AtPrice(s, o.price) + [o]
  {
    EnqueuedList(q, s, o);
    if AtPrice(s', o.price) == AtPrice(s, o.price) + [o] {
      EnqueuedKeeps(q, Enqueued(q, o), s, s', o);
    }
  }

  lemma EnqueuedKeeps(q: Queues, q': Queues, s: seq<Order>, s': seq<Order>, o: Order)
    requires ListsFollow(q, s) && forall x :: x in s' ==> x == o || x in s
    requires forall p :: p in q' <==> p in q || p == o.price
    requires forall p :: p in q && p != o.price ==> q'[p].orders == q[p].orders
    requires forall p :: p != o.price ==> AtPrice(s', p) == AtPrice(s, p)
    requires q'[o.price].orders == AtPrice(s', o.price) == AtPrice(s, o.price) + [o]
    ensures ListsFollow(q', s')
  {
    forall p | p in q' ensures q'[p].orders == AtPrice(s', p) {
      assert p != o.price ==> q[p].orders == AtPrice(s, p);
    }
  }

  /** Taking the `i`-th order out of the walk takes it, and nothing else, out of its list. */
  lemma AtPriceWithout(s: seq<Order>, i: nat, j: nat, p: int)
    requires i < |s| && Unique(s)
    requires s[i].price == p ==> j < |AtPrice(s, p)| && AtPrice(s, p)[j] == s[i] && Unique(AtPrice(s, p))
    ensures AtPrice(Without(s, i), p) == if s[i].price == p then Without(AtPrice(s, p), j) else AtPrice(s, p)
  {
    var a, x, b := s[..i], s[i], s[i + 1..];
    assert s == a + [x] + b;
    AtPriceConcat(a + [x], b, p);
    AtPriceConcat(a, [x], p);
    AtPriceConcat(a, b, p);
    assert AtPrice([x], p) == if x.price == p then [x] else [];
    if x.price == p {
      OnlyPlace(AtPrice(a, p), x, AtPrice(b, p), j);
    }
  }

  lemma OnlyPlace(l: seq<Order>, x: Order, r: seq<Order>, j: nat)
    requires Unique(l + [x] + r) && j < |l + [x] + r| && (l + [x] + r)[j] == x
    ensures Without(l + [x] + r, j) == l + r
  {
    assert (l + [x] + r)[|l|] == x;
  }

  /** Taking an order out of the walk and out of its list keeps the two views together. */
  lemma RemoveKeepsViews(q: Queues, s: seq<Order>, i: nat, j: nat)
    requires ListsFollow(q, s) && Unique(s) && i < |s| && s[i].price in q && Unique(q[s[i].price].orders)
    requires j < |q[s[i].price].orders| && q[s[i].price].orders[j] == s[i]
    ensures ListsFollow(Dequeued(q, s[i].price, j), Without(s, i))
  {
    var p, s' := s[i].price, Without(s, i);
    forall p' | p' in q ensures AtPrice(s', p') == if p' == p then Without(q[p].orders, j) else q[p'].orders {
      AtPriceWithout(s, i, j, p');
    }
    AtPriceMembers(s', p);
  }

  lemma {:induction false} DistinctWalk(t: Tree)
    requires Distinct(t)
    ensures Unique(InOrder(t))
  {
    if t.Node? {
      DistinctWalk(t.left);
      DistinctWalk(t.right);
      WalkElems(t.left);
      WalkElems(t.right);
      assert forall i :: 0 <= i < |InOrder(t.left)| ==> InOrder(t.left)[i] !in InOrder(t.right);
      UniqueAround(InOrder(t.left), t.item, InOrder(t.right));
    }
  }

  lemma UniqueAround(a: seq<Order>, x: Order, b: seq<Order>)
    requires Unique(a) && Unique(b) && x !in a && x !in b && forall i :: 0 <= i < |a| ==> a[i] !in b
    ensures Unique(a + [x] + b)
  {
    var s := a + [x] + b;
    forall i, j | 0 <= i < j < |s| ensures s[i] != s[j] {
      assert i < |a| ==> s[i] == a[i];
      assert j > |a| ==> s[j] in b;
    }
  }
}
