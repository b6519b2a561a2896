module OrderBook {
  import opened BookViews
  import opened Orders
  import opened Priority
  import opened PriceLevels
  import opened TreeShape
  import opened TreeRotation
  import opened TreePaint
  import opened TreeRemoval
  import opened TreeColours
  import Colours
  import RedBlack
  import Market
  import Matching

  class OrderBookSide {
    const isBuy: bool
    const sentinel: Order
    var root: Order
    var levels: map<int, PriceLevel>
    var orderMap: map<nat, Order>
    ghost var shape: Tree
    ghost var nodes: set<Order>
    ghost var keys: seq<Key>
    ghost var queues: Queues
    ghost var view: seq<Ord>

    constructor (isBuy: bool)
      ensures Valid() && this.isBuy == isBuy && fresh(sentinel)
      ensures Contents() == [] && keys == [] && queues == map[] && orderMap == map[] && nodes == {}
      ensures shape == Leaf && ListsFollow(queues, Contents())
      ensures Book() == Market.EMPTY_HALF && !sentinel.red
    {
      this.isBuy := isBuy;
      var nil := new Order.Nil();
      sentinel, root := nil, nil;
      shape, nodes := Leaf, {};
      keys, queues, orderMap, levels, view := [], map[], map[], map[], [];
    }

    ghost function Snapshot(): Links
      reads this`nodes, nodes`left, nodes`right, nodes`parent, nodes`red
    {
      map n | n in nodes :: Cell(n.left, n.right, n.parent, n.red)
    }

    ghost predicate Linked()
      reads this`nodes, this`root, this`shape, nodes`left, nodes`right, nodes`parent, nodes`red
    {
      Coherent(Snapshot(), sentinel, root, shape)
    }

    method TurnLeft(x: Order)
      requires TurnableLeft(Snapshot(), sentinel, x)
      modifies this`root, nodes`left, nodes`right, nodes`parent
      ensures TurnedLeft(old(Snapshot()), Snapshot(), sentinel, old(root), root, x)
    {
      var y := x.right;
      x.right := y.left;
      if y.left != sentinel {
        y.left.parent := x;
      }
      y.parent := x.parent;
      if x.parent == null {
        root := y;
      } else if x == x.parent.left {
        x.parent.left := y;
      } else {
        x.parent.right := y;
      }
      y.left := x;
      x.parent := y;
    }

    method RotateLeft(x: Order, ghost c: Ctx, ghost t: Tree)
      requires Linked() && shape == Plug(c, t) && CanRotateLeft(t) && t.item == x
      modifies this`root, this`shape, nodes`left, nodes`right, nodes`parent
      ensures Linked() && shape == Plug(c, RotatedLeft(t))
    {
      ghost var h := Snapshot();
      LeftTurnable(h, sentinel, root, c, t);
      TurnLeft(x);
      RotateLeftLinks(h, Snapshot(), sentinel, old(root), root, c, t);
      shape := Plug(c, RotatedLeft(t));
    }

    method TurnRight(x: Order)
      requires TurnableRight(Snapshot(), sentinel, x)
      modifies this`root, nodes`right, nodes`left, nodes`parent
      ensures TurnedRight(old(Snapshot()), Snapshot(), sentinel, old(root), root, x)
    {
      var y := x.left;
      x.left := y.right;
      if y.right != sentinel {
        y.right.parent := x;
      }
      y.parent := x.parent;
      if x.parent == null {
        root := y;
      } else if x == x.parent.right {
        x.parent.right := y;
      } else {
        x.parent.left := y;
      }
      y.right := x;
      x.parent := y;
    }

    method RotateRight(x: Order, ghost c: Ctx, ghost t: Tree)
      requires Linked() && shape == Plug(c, t) && CanRotateRight(t) && t.item == x
      modifies this`root, this`shape, nodes`right, nodes`left, nodes`parent
      ensures Linked() && shape == Plug(c, RotatedRight(t))
    {
      ghost var h := Snapshot();
      RightTurnable(h, sentinel, root, c, t);
      TurnRight(x);
      RotateRightLinks(h, Snapshot(), sentinel, old(root), root, c, t);
      shape := Plug(c, RotatedRight(t));
    }

    // ---- Insertion fix-up ---------------------------------------------------------------

    method Paint(n: Order, red: bool)
      requires n in nodes
      modifies n`red
      ensures Snapshot() == old(Snapshot()[n := Snapshot()[n].(red := red)])
    {
      n.red := red;
    }

    method PaintTwo(p: Order, g: Order)
      requires p in nodes && g in nodes && p != g
      modifies p`red, g`red
      ensures Snapshot() == old(Snapshot()[p := Snapshot()[p].(red := false)][g := Snapshot()[g].(red := true)])
    {
      p.red := false;
      g.red := true;
    }

    method PaintThree(p: Order, y: Order, g: Order)
      requires {p, y, g} <= nodes && p != g && y != p && y != g
      modifies p`red, y`red, g`red
      ensures Snapshot() == old(Snapshot()[p := Snapshot()[p].(red := false)]
                                          [y := Snapshot()[y].(red := false)]
                                          [g := Snapshot()[g].(red := true)])
    {
      p.red := false;
      y.red := false;
      g.red := true;
    }

    /** The uncle `y` is red: push the grandparent's blackness down one level. */
    method PushUp(z: Order, y: Order, ghost c: Ctx, ghost t: Tree)
      requires Linked() && shape == Plug(c, t) && t.Node? && t.item == z
      requires !c.Top? && !c.up.Top? && Uncle(c).Node? && y == Uncle(c).item
      modifies this`shape, nodes`red
      ensures Linked() && shape == Plug(c.up.up, PushedUp(c, t))
    {
      ghost var h := Snapshot();
      Kin(h, sentinel, root, c, t);
      UncleLink(h, sentinel, root, c, t);
      PaintThree(z.parent, y, z.parent.parent);
      PushUpLinks(h, Snapshot(), sentinel, root, c, t);
      shape := Plug(c.up.up, PushedUp(c, t));
    }

    /** Parent black and grandparent red, before the grandparent is rotated. */
    method PaintPair(z: Order, ghost c: Ctx, ghost t: Tree)
      requires Linked() && shape == Plug(c, t) && t.Node? && t.item == z
      requires !c.Top? && !c.up.Top?
      modifies this`shape, nodes`red
      ensures Linked() && shape == Plug(c.up.up, Up(c.up, BlackParent(c, t), true))
    {
      ghost var h := Snapshot();
      Kin(h, sentinel, root, c, t);
      PaintTwo(z.parent, z.parent.parent);
      PaintPairLinks(h, Snapshot(), sentinel, root, c, t);
      shape := Plug(c.up.up, Up(c.up, BlackParent(c, t), true));
    }

    method PaintRoot()
      requires Linked() && shape.Node?
      modifies this`shape, nodes`red
      ensures Linked() && shape == Painted(old(shape), false)
    {
      ghost var h := Snapshot();
      Focus(h, sentinel, root, Top, shape);
      Paint(root, false);
      PaintLinks(h, Snapshot(), sentinel, root, Top, shape, false);
      shape := Painted(shape, false);
    }

    /** Black uncle on the right. An inner child is first rotated into an outer one. */
    method MakeOuterLeft(z: Order, ghost c: Ctx, ghost t: Tree)
      returns (z': Order, ghost c': Ctx, ghost t': Tree)
      requires Linked() && shape == Plug(c, t) && IsRed(t) && t.item == z
      requires CtxRed(c) && c.up.InL?
      modifies this`root, this`shape, nodes`left, nodes`right, nodes`parent
      ensures Linked() && shape == Plug(c', t') && InOrder(shape) == old(InOrder(shape))
      ensures IsRed(t') && t'.item == z' && c'.InL? && c'.red && c'.up == c.up
      ensures !IsRed(Uncle(c)) ==> MendedAt(c', t') == MendedAt(c, t)
    {
      Kin(Snapshot(), sentinel, root, c, t);
      z', c', t' := z, c, t;
      if z == z.parent.right {
        z' := z.parent;
        ghost var p := Up(c, t, true);
        if !IsRed(Uncle(c)) { InnerMended(c, t); }
        RotatedLeftSame(p);
        PlugWalk(c.up, p); PlugWalk(c.up, RotatedLeft(p));
        RotateLeft(z', c.up, p);
        c', t' := InL(c.up, z, true, t.right), Node(c.left, z', true, t.left);
      }
    }

    /** Black uncle on the right, outer child: the parent takes the grandparent's place. */
    method RotateOuterLeft(z: Order, ghost c: Ctx, ghost t: Tree)
      returns (ghost c': Ctx)
      requires Linked() && shape == Plug(c, t) && IsRed(t) && t.item == z
      requires c.InL? && c.red && c.up.InL? && !IsRed(c.up.right)
      modifies this`root, this`shape, nodes`left, nodes`right, nodes`parent, nodes`red
      ensures c' == InL(c.up.up, c.item, false, Node(c.right, c.up.item, true, c.up.right))
      ensures MendedAt(c', t) == MendedAt(c, t)
      ensures Linked() && shape == Plug(c', t) && InOrder(shape) == old(InOrder(shape))
    {
      ghost var g, before := Up(c.up, BlackParent(c, t), true), Up(c.up, Up(c, t, true), c.up.red);
      c' := InL(c.up.up, c.item, false, Node(c.right, c.up.item, true, c.up.right));
      OuterMended(c, t);
      Kin(Snapshot(), sentinel, root, c, t);
      assert InOrder(g) == InOrder(before) by { assert InOrder(BlackParent(c, t)) == InOrder(Up(c, t, true)); }
      RotatedRightSame(g);
      PlugWalk(c.up.up, before); PlugWalk(c.up.up, RotatedRight(g));
      PaintPair(z, c, t);
      RotateRight(z.parent.parent, c.up.up, g);
    }

    /** Black uncle on the left. An inner child is first rotated into an outer one. */
    method MakeOuterRight(z: Order, ghost c: Ctx, ghost t: Tree)
      returns (z': Order, ghost c': Ctx, ghost t': Tree)
      requires Linked() && shape == Plug(c, t) && IsRed(t) && t.item == z
      requires CtxRed(c) && c.up.InR?
      modifies this`root, this`shape, nodes`right, nodes`left, nodes`parent
      ensures Linked() && shape == Plug(c', t') && InOrder(shape) == old(InOrder(shape))
      ensures IsRed(t') && t'.item == z' && c'.InR? && c'.red && c'.up == c.up
      ensures !IsRed(Uncle(c)) ==> MendedAt(c', t') == MendedAt(c, t)
    {
      Kin(Snapshot(), sentinel, root, c, t);
      z', c', t' := z, c, t;
      if z == z.parent.left {
        z' := z.parent;
        ghost var p := Up(c, t, true);
        if !IsRed(Uncle(c)) { InnerMended(c, t); }
        RotatedRightSame(p);
        PlugWalk(c.up, p); PlugWalk(c.up, RotatedRight(p));
        RotateRight(z', c.up, p);
        c', t' := InR(t.left, z, true, c.up), Node(t.right, z', true, c.right);
      }
    }

    /** Black uncle on the left, outer child: the parent takes the grandparent's place. */
    method RotateOuterRight(z: Order, ghost c: Ctx, ghost t: Tree)
      returns (ghost c': Ctx)
      requires Linked() && shape == Plug(c, t) && IsRed(t) && t.item == z
      requires c.InR? && c.red && c.up.InR? && !IsRed(c.up.left)
      modifies this`root, this`shape, nodes`right, nodes`left, nodes`parent, nodes`red
      ensures c' == InR(Node(c.up.left, c.up.item, true, c.left), c.item, false, c.up.up)
      ensures MendedAt(c', t) == MendedAt(c, t)
      ensures Linked() && shape == Plug(c', t) && InOrder(shape) == old(InOrder(shape))
    {
      ghost var g, before := Up(c.up, BlackParent(c, t), true), Up(c.up, Up(c, t, true), c.up.red);
      c' := InR(Node(c.up.left, c.up.item, true, c.left), c.item, false, c.up.up);
      OuterMended(c, t);
      Kin(Snapshot(), sentinel, root, c, t);
      assert InOrder(g) == InOrder(before) by { assert InOrder(BlackParent(c, t)) == InOrder(Up(c, t, true)); }
      RotatedLeftSame(g);
      PlugWalk(c.up.up, before); PlugWalk(c.up.up, RotatedLeft(g));
      PaintPair(z, c, t);
      RotateLeft(z.parent.parent, c.up.up, g);
    }

    /** One turn of the fix-up loop, the parent being red. */
    method FixStep(z: Order, ghost c: Ctx, ghost t: Tree)
      returns (z': Order, ghost c': Ctx, ghost t': Tree)
      requires Linked() && shape == Plug(c, t) && IsRed(t) && t.item == z
      requires CtxRed(c) && CtxRootBlack(c)
      modifies this`root, this`shape, nodes`left, nodes`right, nodes`parent, nodes`red
      ensures Linked() && shape == Plug(c', t') && InOrder(shape) == old(InOrder(shape))
      ensures IsRed(t') && t'.item == z' && CtxRootBlack(c')
      ensures MendedAt(c', t') == MendedAt(c, t)
      ensures CtxRed(c') ==> Depth(c') < Depth(c)
      ensures sentinel.red == old(sentinel.red)
    {
      ghost var h := Snapshot();
      Kin(h, sentinel, root, c, t);
      UncleLink(h, sentinel, root, c, t);
      var left := z.parent == z.parent.parent.left;
      var y := if left then z.parent.parent.right else z.parent.parent.left;
      if y != sentinel && y.red {
        PushUpWalk(c, t);
        PushUpMended(c, t);
        z' := z.parent.parent;
        PushUp(z, y, c, t);
        c', t' := c.up.up, PushedUp(c, t);
      } else if left {
        z', c', t' := MakeOuterLeft(z, c, t);
        c' := RotateOuterLeft(z', c', t');
      } else {
        z', c', t' := MakeOuterRight(z, c, t);
        c' := RotateOuterRight(z', c', t');
      }
    }

    method FixInsert(order: Order, ghost c0: Ctx, ghost t0: Tree)
      requires Linked() && shape == Plug(c0, t0)
      requires IsRed(t0) && t0.item == order && CtxRootBlack(c0)
      modifies this`root, this`shape, nodes`left, nodes`right, nodes`parent, nodes`red
      ensures Linked() && InOrder(shape) == old(InOrder(shape)) && shape.Node? && !IsRed(shape)
      ensures Coloured(shape) == MendedAt(c0, t0)
      ensures sentinel.red == old(sentinel.red)
    {
      var z := order;
      ghost var c, t := c0, t0;
      ParentColour(Snapshot(), sentinel, root, c, t);
      while z.parent != null && z.parent.red
        invariant Linked() && shape == Plug(c, t)
        invariant IsRed(t) && t.item == z && CtxRootBlack(c)
        invariant InOrder(shape) == old(InOrder(shape))
        invariant MendedAt(c, t) == MendedAt(c0, t0)
        invariant z in nodes && (z.parent != null && z.parent.red <==> CtxRed(c))
        decreases if CtxRed(c) then 1 + Depth(c) else 0
      {
        z, c, t := FixStep(z, c, t);
        ParentColour(Snapshot(), sentinel, root, c, t);
      }
      MendedOver(c, t);
      PaintRoot();
    }

    // ---- Insertion ----------------------------------------------------------------------

    ghost function Contents(): seq<Order>
      reads this`shape
    {
      InOrder(shape)
    }

    /** The descent from the root to the free place of a newcomer. */
    method Descend(order: Order) returns (y: Order?, ghost c: Ctx)
      requires TreeValid()
      ensures shape == Plug(c, Leaf) && y == Parent(c)
      ensures |Before(c)| == Position(isBuy, keys, KeyOf(order))
      ensures c.InL? ==> Ahead(isBuy, KeyOf(order), KeyOf(c.item))
      ensures c.InR? ==> !Ahead(isBuy, KeyOf(order), KeyOf(c.item))
    {
      var x := root;
      y := null;
      c := Top;
      ghost var t := shape;
      while x != sentinel
        invariant TreeValid() && shape == Plug(c, t) && y == Parent(c)
        invariant x == Root(sentinel, t) && (t.Node? ==> x != sentinel)
        invariant forall e :: e in Before(c) ==> !Ahead(isBuy, KeyOf(order), KeyOf(e))
        invariant forall e :: e in After(c) ==> Ahead(isBuy, KeyOf(order), KeyOf(e))
        invariant c.InL? ==> Ahead(isBuy, KeyOf(order), KeyOf(c.item))
        invariant c.InR? ==> !Ahead(isBuy, KeyOf(order), KeyOf(c.item))
        decreases t
      {
        Focus(Snapshot(), sentinel, root, c, t);
        SearchStep(c, t, order);
        Down(c, t);
        y := x;
        if PriceBetter(isBuy, order.price, x.price) || (order.price == x.price && order.timestamp < x.timestamp) {
          x := x.left;
          c, t := InL(c, t.item, t.red, t.right), t.left;
        } else {
          x := x.right;
          c, t := InR(t.left, t.item, t.red, c), t.right;
        }
      }
      SearchEnd(c, order);
    }

    /** What one comparison says about all the orders on the other side of `t.item`. */
    lemma SearchStep(c: Ctx, t: Tree, order: Order)
      requires t.Node? && shape == Plug(c, t) && Sorted(isBuy, keys) && KeysOf(InOrder(shape), keys)
      ensures Ahead(isBuy, KeyOf(order), KeyOf(t.item)) ==>
                forall e :: e in InOrder(t.right) ==> Ahead(isBuy, KeyOf(order), KeyOf(e))
      ensures !Ahead(isBuy, KeyOf(order), KeyOf(t.item)) ==>
                forall e :: e in InOrder(t.left) ==> !Ahead(isBuy, KeyOf(order), KeyOf(e))
    {
      PlugWalkNode(c, t);
      SortedAround(isBuy, keys, Before(c) + InOrder(t.left), t.item, InOrder(t.right) + After(c));
    }

    lemma SearchEnd(c: Ctx, order: Order)
      requires shape == Plug(c, Leaf) && KeysOf(InOrder(shape), keys)
      requires forall e :: e in Before(c) ==> !Ahead(isBuy, KeyOf(order), KeyOf(e))
      requires forall e :: e in After(c) ==> Ahead(isBuy, KeyOf(order), KeyOf(e))
      ensures |Before(c)| == Position(isBuy, keys, KeyOf(order))
    {
      PlugWalk(c, Leaf);
      var n := |Before(c)|;
      forall i | 0 <= i < |keys|
        ensures keys[i] == KeyOf(if i < n then Before(c)[i] else After(c)[i - n])
        ensures if i < n then InOrder(shape)[i] in Before(c) else InOrder(shape)[i] in After(c)
      {
      }
      PositionUnique(isBuy, keys, KeyOf(order), n);
    }

    /** Hang `order` below `y`, on the side the comparison says. */
    method Attach(order: Order, y: Order?, ghost c: Ctx)
      requires Linked() && shape == Plug(c, Leaf) && y == Parent(c)
      requires order !in nodes && order != sentinel
      requires order.left == order.right == sentinel && order.red
      requires c.InL? ==> Ahead(isBuy, KeyOf(order), KeyOf(c.item))
      requires c.InR? ==> !Ahead(isBuy, KeyOf(order), KeyOf(c.item))
      modifies this`root, this`shape, this`nodes, nodes`left, nodes`right, order`parent
      ensures Linked() && shape == Plug(c, Node(Leaf, order, true, Leaf)) && nodes == old(nodes) + {order}
      ensures sentinel.red == old(sentinel.red)
    {
      ghost var h := Snapshot();
      PlugElems(c, Leaf);
      PlugRep(h, sentinel, root, c, Leaf);
      order.parent := y;
      if y == null {
        root := order;
      } else if PriceBetter(isBuy, order.price, y.price) || (order.price == y.price && order.timestamp < y.timestamp) {
        y.left := order;
      } else {
        y.right := order;
      }
      nodes := nodes + {order};
      shape := Plug(c, Node(Leaf, order, true, Leaf));
      AttachLinks(h, Snapshot(), sentinel, old(root), root, c, order);
    }

    // ---- Price levels -------------------------------------------------------------------

    /** The level map and the list links are exactly the queues, which hold the orders `ns`. */
    ghost predicate Listed(ns: set<Order>)
      reads this`levels, this`queues, ns`prev, ns`next, ns`remaining
    {
      && levels.Keys == queues.Keys && HeldBy(queues, ns)
      && (forall p :: p in queues ==> LevelOf(levels[p], p, queues[p]))
    }

    /** Touching the list links of orders at one price leaves every other level as it was. */
    twostate lemma OthersKept(k: (int, set<Order>))
      requires old(Listed(k.1)) && queues == old(queues)
      requires forall o :: o in k.1 ==> o.remaining == old(o.remaining)
      requires forall o :: o in k.1 && o.price != k.0 ==> o.prev == old(o.prev) && o.next == old(o.next)
      ensures forall p :: p in queues && p != k.0 ==> LevelOf(old(levels)[p], p, queues[p])
    {
      forall p | p in queues && p != k.0 ensures LevelOf(old(levels)[p], p, queues[p]) {
        assert old(LevelOf(levels[p], p, queues[p]));
        assert forall i :: 0 <= i < |queues[p].orders| ==> queues[p].orders[i] in queues[p].orders;
        assert Total(queues[p].orders) == old(Total(queues[p].orders));
        assert Chained(queues[p].orders);
      }
    }

    /** Nothing of the tree is touched. */
    twostate predicate SameTree()
      reads this, nodes
    {
      && root == old(root) && shape == old(shape) && nodes == old(nodes) && keys == old(keys)
      && (forall o :: o in old(nodes) ==>
            && o.left == old(o.left) && o.right == old(o.right) && o.parent == old(o.parent)
            && o.red == old(o.red) && o.timestamp == old(o.timestamp))
    }

    /** All levels but that of `p` show their lists. */
    ghost predicate OthersShown(p: int, ns: set<Order>)
      reads this`levels, this`queues, ns`prev, ns`next, ns`remaining
    {
      && levels.Keys == queues.Keys && HeldBy(queues, ns)
      && (forall p' :: p' in queues && p' != p ==> LevelOf(levels[p'], p', queues[p']))
    }

    method SetLevel(p: int, level: PriceLevel, ids: map<nat, Order>,
                    ghost q: Queues, ghost v: seq<Ord>, ghost ns: set<Order>, ghost ns': set<Order>)
      requires OthersShown(p, ns) && HeldBy(q, ns') && p in q && LevelOf(level, p, q[p])
      requires q == queues[p := q[p]]
      modifies this`levels, this`orderMap, this`queues, this`view
      ensures levels == old(levels)[p := level] && queues == q && Listed(ns')
      ensures SameTree() && orderMap == ids && view == v
      ensures sentinel.red == old(sentinel.red)
    {
      levels, orderMap := levels[p := level], ids;
      queues, view := q, v;
    }

    method EraseLevel(p: int, ids: map<nat, Order>, ghost v: seq<Ord>, ghost ns: set<Order>, ghost ns': set<Order>)
      requires OthersShown(p, ns) && HeldBy(queues - {p}, ns')
      modifies this`levels, this`orderMap, this`queues, this`view
      ensures levels == old(levels) - {p} && queues == old(queues) - {p} && Listed(ns')
      ensures SameTree() && orderMap == ids && view == v
      ensures sentinel.red == old(sentinel.red)
    {
      levels, orderMap := levels - {p}, ids;
      queues, view := queues - {p}, v;
    }

    /** Link `order` to the back of its list; the level map is not told yet. */
    method LinkLast(order: Order, ghost rest: set<Order>) returns (level: PriceLevel)
      requires Listed(rest) && order !in rest && order.remaining > 0
      modifies (rest + {order})`prev, (rest + {order})`next
      ensures OthersShown(order.price, rest)
      ensures LevelOf(level, order.price, Enqueued(queues, order)[order.price])
      ensures level.total == (if order.price in levels then levels[order.price].total else 0) + order.remaining
      ensures sentinel.red == old(sentinel.red)
    {
      var p := order.price;
      ghost var line := if p in queues then queues[p] else NO_LINE;
      level := if p in levels then levels[p] else PriceLevel(p, 0, null, null);
      assert forall i :: 0 <= i < |line.orders| ==> line.orders[i] in line.orders;
      level := Append(level, order, line);
      OthersKept((p, rest));
    }

    /** `order` goes to the back of the list at its price and into the id map. */
    method Enter(order: Order, ghost rest: set<Order>, ghost v: seq<Ord>)
      requires Listed(rest) && order !in rest && order.remaining > 0
      modifies this`levels, this`queues, this`orderMap, this`view, (rest + {order})`prev, (rest + {order})`next
      ensures Listed(rest + {order}) && queues == Enqueued(old(queues), order)
      ensures TotalRaised(old(levels), levels, order.price, order.remaining) && order.View() == old(order.View())
      ensures SameTree() && orderMap == old(orderMap)[order.id := order] && view == v
      ensures sentinel.red == old(sentinel.red)
    {
      EnqueuedHolds(queues, order, rest);
      var level := LinkLast(order, rest);
      SetLevel(order.price, level, orderMap[order.id := order], Enqueued(queues, order), v, rest, rest + {order});
    }

    /** Take `order` out of its list; the level map is not told yet. */
    method UnlinkAt(order: Order, ghost i: nat, ghost ns: set<Order>) returns (level: PriceLevel)
      requires Listed(ns) && order.price in queues
      requires i < |queues[order.price].orders| && queues[order.price].orders[i] == order
      modifies ns`prev, ns`next
      ensures OthersShown(order.price, ns) && level.total == levels[order.price].total - order.remaining >= 0
      ensures order.price in Dequeued(queues, order.price, i) <==> level.total != 0
      ensures level.total != 0 ==> LevelOf(level, order.price, Dequeued(queues, order.price, i)[order.price])
    {
      var p := order.price;
      ghost var line := queues[p];
      assert LevelOf(levels[p], p, line);
      assert forall k :: 0 <= k < |line.orders| ==> line.orders[k] in line.orders;
      level := Unlink(levels[p], order, line, i);
      OthersKept((p, ns));
    }

    /** The lists without `order`. */
    lemma ReadyToUnlink(order: Order, i: nat, ns: set<Order>)
      requires Listed(ns) && order.price in queues
      requires i < |queues[order.price].orders| && queues[order.price].orders[i] == order
      ensures HeldBy(Dequeued(queues, order.price, i), ns - {order})
    {
      assert LevelOf(levels[order.price], order.price, queues[order.price]);
      ChainedUnique(queues[order.price].orders);
      forall p, o | p in queues && o in queues[p].orders ensures o.price == p {
        assert LevelOf(levels[p], p, queues[p]);
      }
      DequeuedHolds(queues, order, i, ns);
    }

    /** `order` leaves its list and the id map; a level with nothing left is erased. Nothing looks at the id
        map before the tree has lost the order, too. */
    method Exit(order: Order, ghost i: nat, ghost ns: set<Order>, ghost v: seq<Ord>)
      requires Listed(ns) && order.price in queues
      requires i < |queues[order.price].orders| && queues[order.price].orders[i] == order
      modifies this`levels, this`queues, this`orderMap, this`view, ns`prev, ns`next
      ensures Listed(ns - {order}) && queues == Dequeued(old(queues), order.price, i)
      ensures TotalLowered(old(levels), levels, order.price, order.remaining)
      ensures SameTree() && orderMap == old(orderMap) - {order.id} && view == v
    {
      ReadyToUnlink(order, i, ns);
      var level := UnlinkAt(order, i, ns);
      var ids := orderMap - {order.id};
      if level.total == 0 {
        EraseLevel(order.price, ids, v, ns, ns - {order});
      } else {
        SetLevel(order.price, level, ids, Dequeued(queues, order.price, i), v, ns, ns - {order});
      }
    }

    // ---- The whole side -----------------------------------------------------------------

    ghost predicate TreeValid()
      reads this`nodes, this`root, this`shape, this`keys, nodes`left, nodes`right, nodes`parent, nodes`red,
            nodes`timestamp
    {
      && Linked() && !IsRed(shape)
      && (forall o {:trigger o in InOrder(shape)} :: o in InOrder(shape) ==> o in nodes)
      && KeysOf(InOrder(shape), keys) && Sorted(isBuy, keys)
    }

    /** Tree, lists, levels and id map are four views of one set of orders, whose values are `view`. */
    ghost predicate Valid()
      reads this, nodes
    {
      TreeValid() && Listed(nodes) && IdsAgree(orderMap, nodes) && Mirrors(Contents(), view)
    }

    /** The orders' values in priority order, the level totals, and what was traded at each level. */
    ghost function Book(): Market.Half
      reads this`view, this`levels, this`queues
    {
      Market.Half(view, TotalsOf(levels), TradedIn(queues))
    }

    /** Put `order` into the free place `c` and rebalance. */
    method InsertNode(order: Order, y: Order?, ghost c: Ctx)
      requires Linked() && !IsRed(shape) && shape == Plug(c, Leaf) && y == Parent(c)
      requires c.InL? ==> Ahead(isBuy, KeyOf(order), KeyOf(c.item))
      requires c.InR? ==> !Ahead(isBuy, KeyOf(order), KeyOf(c.item))
      requires order !in nodes && order != sentinel
      modifies this`root, this`shape, this`nodes, (nodes + {order})`left, (nodes + {order})`right,
               (nodes + {order})`parent, (nodes + {order})`red
      ensures Linked() && !IsRed(shape) && nodes == old(nodes) + {order}
      ensures InOrder(shape) == InOrder(Plug(c, Node(Leaf, order, true, Leaf)))
      ensures Coloured(shape) == MendedAt(c, Node(Leaf, order, true, Leaf))
      ensures sentinel.red == old(sentinel.red)
    {
      ghost var t := Node(Leaf, order, true, Leaf);
      assert CtxRootBlack(c) by { PlugRootBlack(c, Leaf); }
      order.left := sentinel;
      order.right := sentinel;
      order.red := true;
      Attach(order, y, c);
      FixInsert(order, c, t);
    }

    /** Find the place of `order`, put it there and rebalance. */
    method InsertInOrder(order: Order, ghost s: seq<Order>, ghost k: seq<Key>)
      requires TreeValid() && order !in nodes && order != sentinel
      requires KeysOf(s, k)
      modifies this`root, this`shape, this`nodes, (nodes + {order})`left, (nodes + {order})`right,
               (nodes + {order})`parent, (nodes + {order})`red
      ensures Linked() && !IsRed(shape) && nodes == old(nodes) + {order}
      ensures Contents() == InsertAt(old(Contents()), Position(isBuy, keys, KeyOf(order)), order)
      ensures Coloured(shape) == Grown(old(shape), Position(isBuy, keys, KeyOf(order)))
      ensures KeysOf(s, k) && keys == old(keys) && KeyOf(order) == old(KeyOf(order))
      ensures sentinel.red == old(sentinel.red)
    {
      var y;
      ghost var c;
      y, c := Descend(order);
      InsertWalk(c, order);
      GrownAt(c, order);
      InsertNode(order, y, c);
    }

    /** Everything an insertion does to the tree. */
    method InsertTree(order: Order)
      requires TreeValid() && order !in nodes && order != sentinel
      modifies this`root, this`shape, this`nodes, this`keys, (nodes + {order})`left, (nodes + {order})`right,
               (nodes + {order})`parent, (nodes + {order})`red
      ensures TreeValid() && nodes == old(nodes) + {order}
      ensures Contents() == InsertAt(old(Contents()), Position(isBuy, old(keys), KeyOf(order)), order)
      ensures keys == InsertAt(old(keys), Position(isBuy, old(keys), KeyOf(order)), KeyOf(order))
      ensures Coloured(shape) == Grown(old(shape), Position(isBuy, old(keys), KeyOf(order)))
      ensures sentinel.red == old(sentinel.red)
    {
      ghost var n := Position(isBuy, keys, KeyOf(order));
      ghost var keys', walk' := InsertAt(keys, n, KeyOf(order)), InsertAt(Contents(), n, order);
      InsertKeepsSorted(isBuy, keys, KeyOf(order));
      KeysInsert(Contents(), keys, n, order);
      InsertInOrder(order, walk', keys');
      WalkElems(shape);
      keys := keys';
    }

    /** The tree does not notice what happens to lists, levels, id map and values. */
    twostate lemma TreeKept()
      requires old(TreeValid()) && SameTree()
      ensures TreeValid()
    {
      assert Snapshot() == old(Snapshot());
      WalkElems(shape);
      assert forall i :: 0 <= i < |InOrder(shape)| ==> InOrder(shape)[i] in InOrder(shape);
    }

    /** The lists of `ns` do not notice what happens to the tree. */
    twostate lemma ListsKept(ns: set<Order>)
      requires old(Listed(ns)) && queues == old(queues) && levels == old(levels)
      requires forall o :: o in ns ==>
                 o.prev == old(o.prev) && o.next == old(o.next) && o.remaining == old(o.remaining)
      ensures Listed(ns)
    {
      forall p | p in queues ensures LevelOf(levels[p], p, queues[p]) {
        assert old(LevelOf(levels[p], p, queues[p]));
        assert forall i :: 0 <= i < |queues[p].orders| ==> queues[p].orders[i] in queues[p].orders;
        assert Total(queues[p].orders) == old(Total(queues[p].orders));
        assert Chained(queues[p].orders);
      }
    }

    /** Lists stay as they are while `order` enters the tree, and any orders `s` keep their values `v`. */
    method Grow(order: Order, ghost rest: set<Order>, ghost s: seq<Order>, ghost v: seq<Ord>)
      requires TreeValid() && order !in nodes && order != sentinel && rest == nodes && Listed(rest) && Mirrors(s, v)
      modifies this`root, this`shape, this`nodes, this`keys, (nodes + {order})`left, (nodes + {order})`right,
               (nodes + {order})`parent, (nodes + {order})`red
      ensures TreeValid() && nodes == rest + {order} && Listed(rest) && Mirrors(s, v)
      ensures levels == old(levels) && queues == old(queues) && orderMap == old(orderMap)
      ensures order.View() == old(order.View())
      ensures Contents() == InsertAt(old(Contents()), Position(isBuy, old(keys), KeyOf(order)), order)
      ensures keys == InsertAt(old(keys), Position(isBuy, old(keys), KeyOf(order)), KeyOf(order))
      ensures Coloured(shape) == Grown(old(shape), Position(isBuy, old(keys), KeyOf(order)))
      ensures sentinel.red == old(sentinel.red)
    {
      InsertTree(order);
      ListsKept(rest);
    }

    /** The tree stays as it is while `order` enters lists, levels and id map. */
    method Enlist(order: Order, ghost rest: set<Order>, ghost s: seq<Order>, ghost v: seq<Ord>)
      requires TreeValid() && nodes == rest + {order} && order !in rest && order.remaining > 0
      requires Listed(rest) && Mirrors(s, v)
      modifies this`levels, this`queues, this`orderMap, this`view, nodes`prev, nodes`next
      ensures TreeValid() && Listed(nodes) && Mirrors(s, v) && view == v
      ensures shape == old(shape) && nodes == old(nodes) && keys == old(keys)
      ensures order.View() == old(order.View())
      ensures queues == Enqueued(old(queues), order) && orderMap == old(orderMap)[order.id := order]
      ensures TotalRaised(old(levels), levels, order.price, order.remaining)
      ensures sentinel.red == old(sentinel.red)
    {
      Enter(order, rest, v);
      TreeKept();
    }

    method Insert(order: Order) returns (ok: bool)
      requires Valid()
      requires order !in nodes && order != sentinel && order.id !in orderMap && order.remaining > 0
      modifies this`root, this`shape, this`nodes, this`keys, this`levels, this`queues, this`orderMap, this`view,
               (nodes + {order})`left, (nodes + {order})`right, (nodes + {order})`parent,
               (nodes + {order})`red, (nodes + {order})`prev, (nodes + {order})`next
      ensures Valid()
      ensures ok <==> order.price > 0 && order.quantity > 0
      ensures order.View() == old(order.View())
      ensures !ok ==> unchanged(this)
      ensures ok ==> Contents() == InsertAt(old(Contents()), Position(isBuy, old(keys), KeyOf(order)), order)
      ensures ok ==> keys == InsertAt(old(keys), Position(isBuy, old(keys), KeyOf(order)), KeyOf(order))
      ensures ok ==> Coloured(shape) == Grown(old(shape), Position(isBuy, old(keys), KeyOf(order)))
      ensures ok ==> orderMap == old(orderMap)[order.id := order] && nodes == old(nodes) + {order}
      ensures ok ==> queues == Enqueued(old(queues), order)
      ensures ok ==> Book() == Market.WithOrder(isBuy, old(Book()), order.View())
      ensures ok ==> (ListsFollow(queues, Contents()) <==>
        old(ListsFollow(queues, Contents())) && NotEarlier(old(Contents()), old(keys), order, KeyOf(order)))
      ensures sentinel.red == old(sentinel.red)
      ensures ok && IsRedBlack(old(shape)) ==> IsRedBlack(shape)
    {
      if order.price <= 0 || order.quantity <= 0 {
        return false;
      }
      if IsRedBlack(shape) { InsertStays(order); }
      ghost var s, v := ReadyToInsert(order);
      ghost var k, m, q, w, o := keys, levels, queues, view, order.View();
      IdsAdded(orderMap, nodes, order);
      Grow(order, nodes, s, v);
      Enlist(order, old(nodes), s, v);
      WithOrderIs(isBuy, w, k, m, levels, q, order, o);
      return true;
    }

    lemma InsertStays(order: Order)
      requires Valid() && IsRedBlack(shape)
      ensures RedBlack.RedBlackShape(Grown(shape, Position(isBuy, keys, KeyOf(order))))
    {
      GrownStays(shape, Position(isBuy, keys, KeyOf(order)));
    }

    /** What the walk and its values will be, and whether the lists will follow the walk. */
    lemma ReadyToInsert(order: Order) returns (s: seq<Order>, v: seq<Ord>)
      requires Valid() && order !in nodes
      ensures var n := Position(isBuy, keys, KeyOf(order));
        && s == InsertAt(Contents(), n, order) && v == InsertAt(view, n, order.View())
        && Mirrors(s, v) && OrdKeys(view) == keys
        && (ListsFollow(Enqueued(queues, order), s) <==>
              ListsFollow(queues, Contents()) && NotEarlier(Contents(), keys, order, KeyOf(order)))
    {
      var n := Position(isBuy, keys, KeyOf(order));
      s, v := InsertAt(Contents(), n, order), InsertAt(view, n, order.View());
      MirroredKeys(Contents(), keys, view);
      MirrorsInsert(Contents(), view, n, order);
      WalkElems(shape);
      if ListsFollow(queues, Contents()) {
        InsertKeepsViews(isBuy, queues, Contents(), keys, order, KeyOf(order));
      } else if ListsFollow(Enqueued(queues, order), s) {
        StrayedStays(queues, Contents(), n, order);
      }
    }

    // ---- Removal ------------------------------------------------------------------------

    /** The parent of `z`, or the root pointer, adopts `child` in its stead. */
    method Transplant(z: Order, child: Order)
      requires z != child && z.parent != z && z.parent != child
      requires z.parent != null ==> (z.parent.left == z <==> z.parent.right != z)
      modifies this`root, (if z.parent == null then {} else {z.parent})`left,
               (if z.parent == null then {} else {z.parent})`right,
               (if child == sentinel then {} else {child})`parent
      ensures root == if z.parent == null then child else old(root)
      ensures z.parent != null ==>
        && z.parent.left == (if old(z.parent.left) == z then child else old(z.parent.left))
        && z.parent.right == (if old(z.parent.left) == z then old(z.parent.right) else child)
      ensures child.parent == if child == sentinel then old(child.parent) else z.parent
    {
      if z.parent == null {
        root := child;
      } else if z == z.parent.left {
        z.parent.left := child;
      } else {
        z.parent.right := child;
      }
      if child != sentinel {
        child.parent := z.parent;
      }
    }

    /** `z` is in the tree, its neighbours too, and no two of them coincide. */
    ghost predicate Placed(z: Order)
      reads this`nodes, nodes`left, nodes`right, nodes`parent
    {
      && z in nodes && sentinel !in nodes && z.parent != z
      && z.left != null && z.right != null && z.left != z && z.right != z
      && (z.left == sentinel || z.left in nodes) && (z.right == sentinel || z.right in nodes)
      && (z.left == z.right ==> z.left == sentinel)
      && (z.parent != null ==>
            z.parent in nodes && z.parent != z.left && z.parent != z.right
              && (z.parent.left == z <==> z.parent.right != z))
    }

    method Detach(z: Order, child: Order)
      requires Placed(z) && (child == z.left || child == z.right)
      modifies this`root, this`nodes, nodes`left, nodes`right, nodes`parent
      ensures nodes == old(nodes) - {z}
      ensures Spliced(old(Snapshot()), Snapshot(), sentinel, old(root), root, z, child)
    {
      Transplant(z, child);
      nodes := nodes - {z};
    }

    /** An order with at most one child gives way to that child. */
    method SpliceOut(z: Order, child: Order, ghost c: Ctx, ghost t: Tree)
      requires Linked() && shape == Plug(c, t) && Spliceable(t) && t.item == z
      requires child == Root(sentinel, OnlyChild(t))
      modifies this`root, this`shape, this`nodes, nodes`left, nodes`right, nodes`parent
      ensures Linked() && shape == Plug(c, OnlyChild(t)) && nodes == old(nodes) - {z}
    {
      ghost var h := Snapshot();
      Focus(h, sentinel, root, c, t);
      Detach(z, child);
      SpliceLinks(h, Snapshot(), sentinel, old(root), root, c, t);
      shape := Plug(c, OnlyChild(t));
    }

    /** `y` gets the children and the colour of `z`. */
    method TakeFamily(z: Order, y: Order)
      requires Placed(z) && y !in nodes && y != sentinel
      modifies y`left, y`right, y`red, nodes`parent
      ensures y.left == z.left && y.right == z.right && y.red == z.red && z.parent == old(z.parent)
      ensures forall n :: n in nodes ==>
        n.parent == if (n == z.left || n == z.right) && n != sentinel then y else old(n.parent)
    {
      y.right := z.right;
      if y.right != sentinel {
        y.right.parent := y;
      }
      y.left := z.left;
      if y.left != sentinel {
        y.left.parent := y;
      }
      y.red := z.red;
    }

    method TakeOver(z: Order, y: Order)
      requires Placed(z) && y !in nodes && y != sentinel
      modifies this`root, this`nodes, nodes`left, nodes`right, nodes`parent, y`left, y`right, y`parent, y`red
      ensures nodes == old(nodes) - {z} + {y}
      ensures Substituted(old(Snapshot()), Snapshot(), sentinel, old(root), root, z, y)
    {
      TakeFamily(z, y);
      Transplant(z, y);
      nodes := nodes - {z} + {y};
    }

    /** `y`, outside the tree, takes the place, the children and the colour of `z`. */
    method Substitute(z: Order, y: Order, ghost c: Ctx, ghost t: Tree)
      requires Linked() && shape == Plug(c, t) && t.Node? && t.item == z
      requires y !in nodes && y != sentinel
      modifies this`root, this`shape, this`nodes, nodes`left, nodes`right, nodes`parent,
               y`left, y`right, y`parent, y`red
      ensures Linked() && shape == Plug(c, t.(item := y)) && nodes == old(nodes) - {z} + {y}
    {
      ghost var h := Snapshot();
      Focus(h, sentinel, root, c, t);
      TakeOver(z, y);
      SubstituteLinks(h, Snapshot(), sentinel, old(root), root, c, t, y);
      shape := Plug(c, t.(item := y));
    }

    // ---- Removal fix-up -----------------------------------------------------------------

    method PaintAt(n: Order, red: bool, ghost c: Ctx, ghost t: Tree)
      requires Linked() && shape == Plug(c, t) && t.Node? && t.item == n
      modifies this`shape, n`red
      ensures Linked() && shape == Plug(c, Painted(t, red))
    {
      ghost var h := Snapshot();
      Focus(h, sentinel, root, c, t);
      Paint(n, red);
      PaintLinks(h, Snapshot(), sentinel, root, c, t, red);
      shape := Plug(c, Painted(t, red));
    }

    /** A red sibling is rotated above the parent, so that the next sibling is not red. */
    method LowerSiblingLeft(x: Order, w: Order, ghost c: Ctx, ghost t: Tree) returns (w': Order, ghost c': Ctx)
      requires Linked() && shape == Plug(c, t) && t.Node? && t.item == x && c.InL?
      requires IsRed(c.right) && w == c.right.item && RootBlack(c, t)
      modifies this`root, this`shape, nodes`left, nodes`right, nodes`parent, nodes`red
      ensures c' == LoweredLeft(c) && RootBlack(c', t)
      ensures Linked() && shape == Plug(c', t) && InOrder(shape) == old(InOrder(shape))
      ensures w' == Root(sentinel, c.right.left)
    {
      Sibling(Snapshot(), sentinel, root, c, t);
      c' := LoweredLeft(c);
      ghost var p := Node(t, c.item, true, Node(c.right.left, w, false, c.right.right));
      ghost var p0 := Up(c, t, c.red);
      RotatedLeftSame(p);
      assert InOrder(c.right) == InOrder(p.right);
      PlugWalk(c.up, p0); PlugWalk(c.up, RotatedLeft(p));
      PaintAt(w, false, BesideCtx(c, t, c.red), c.right);
      PaintAt(x.parent, true, c.up, Up(c, t, c.red).(right := p.right));
      RotateLeft(x.parent, c.up, p);
      Sibling(Snapshot(), sentinel, root, c', t);
      w' := x.parent.right;
    }

    /** The sibling's inner child is red and its outer one is not: rotate the red to the outside. */
    method TurnSiblingLeft(x: Order, w: Order, ghost c: Ctx, ghost t: Tree) returns (w': Order, ghost c': Ctx)
      requires Linked() && shape == Plug(c, t) && t.Node? && t.item == x && c.InL? && RootBlack(c, t)
      requires c.right.Node? && w == c.right.item && IsRed(c.right.left)
      modifies this`root, this`shape, nodes`left, nodes`right, nodes`parent, nodes`red
      ensures Linked() && shape == Plug(c', t) && InOrder(shape) == old(InOrder(shape)) && RootBlack(c', t)
      ensures c' == c.(right := TurnedOutRight(c.right)) && w' == c'.right.item
    {
      Sibling(Snapshot(), sentinel, root, c, t);
      ghost var d := InR(t, c.item, c.red, c.up);
      ghost var w0 := c.right;
      ghost var v := Node(Painted(w0.left, false), w, true, w0.right);
      assert InOrder(v) == InOrder(w0);
      RotatedRightSame(v);
      c' := c.(right := RotatedRight(v));
      PlugWalk(d, w0); PlugWalk(d, RotatedRight(v));
      PaintAt(w.left, false, InL(d, w, w0.red, w0.right), w0.left);
      PaintAt(w, true, d, w0.(left := Painted(w0.left, false)));
      RotateRight(w, d, v);
      Sibling(Snapshot(), sentinel, root, c', t);
      w' := x.parent.right;
    }

    /** The sibling's outer child is red: one rotation at the parent ends the fix-up. */
    method RaiseSiblingLeft(x: Order, w: Order, ghost c: Ctx, ghost t: Tree)
      requires Linked() && shape == Plug(c, t) && t.Node? && t.item == x && c.InL? && RootBlack(c, t)
      requires c.right.Node? && w == c.right.item
      modifies this`root, this`shape, nodes`left, nodes`right, nodes`parent, nodes`red, sentinel`red
      ensures Linked() && InOrder(shape) == old(InOrder(shape)) && shape.Node? && !IsRed(shape)
      ensures sentinel.red == (old(sentinel.red) && OuterOf(c).Node?)
      ensures shape == Plug(c.up, RaisedLeft(c, t))
    {
      ghost var r, w0, d := c.red, c.right, InR(t, c.item, c.red, c.up);
      ghost var w1 := w0.(red := r, right := Painted(w0.right, false));
      ghost var p := Node(t, c.item, false, w1);
      RaisedLeftWalk(c, t);
      PaintForRaiseLeft(x, w, c, t);
      RotateLeft(x.parent, c.up, p);
      PlugNode(c.up, RotatedLeft(p));
      PlugRootBlack(c.up, RotatedLeft(p));
    }

    /** The three recolourings before that rotation. */
    method PaintForRaiseLeft(x: Order, w: Order, ghost c: Ctx, ghost t: Tree)
      requires Linked() && shape == Plug(c, t) && t.Node? && t.item == x && c.InL?
      requires c.right.Node? && w == c.right.item
      modifies this`shape, nodes`red, sentinel`red
      ensures Linked() && x.parent == c.item && sentinel.red == (old(sentinel.red) && OuterOf(c).Node?)
      ensures shape
        == Plug(c.up, Node(t, c.item, false, c.right.(red := c.red, right := Painted(c.right.right, false))))
    {
      Sibling(Snapshot(), sentinel, root, c, t);
      ghost var w0, d := c.right, InR(t, c.item, c.red, c.up);
      ghost var w1 := w0.(red := c.red);
      PaintAt(w, x.parent.red, d, w0);
      PaintAt(x.parent, false, c.up, Node(t, c.item, c.red, w1));
      PaintOuterLeft(w, c, t);
    }

    /** The third one: the sibling's outer child, or the sentinel in its place. */
    method PaintOuterLeft(w: Order, ghost c: Ctx, ghost t: Tree)
      requires t.Node? && c.InL? && c.right.Node? && w == c.right.item
      requires Linked() && shape == Plug(c.up, Node(t, c.item, false, c.right.(red := c.red)))
      modifies this`shape, nodes`red, sentinel`red
      ensures Linked()
      ensures shape
        == Plug(c.up, Node(t, c.item, false, c.right.(red := c.red, right := Painted(c.right.right, false))))
      ensures sentinel.red == (old(sentinel.red) && OuterOf(c).Node?)
    {
      ghost var h := Snapshot();
      Sibling(h, sentinel, root, InL(c.up, c.item, false, c.right.(red := c.red)), t);
      if w.right == sentinel {
        sentinel.red := false;
        assert Snapshot() == h;
      } else {
        PaintAt(w.right, false, InR(c.right.left, w, c.red, InR(t, c.item, false, c.up)), c.right.right);
      }
    }

    /** The sibling has no red child and is painted red. */
    method EvenSiblingLeft(x: Order, w: Order, ghost c: Ctx, ghost t: Tree)
      requires Linked() && shape == Plug(c, t) && t.Node? && t.item == x && c.InL?
      requires c.right.Node? && w == c.right.item
      modifies this`shape, w`red
      ensures Linked() && shape == Plug(c.up, Evened(c, t)) && InOrder(shape) == old(InOrder(shape))
      ensures x.parent == c.item
    {
      ghost var d := InR(t, c.item, c.red, c.up);
      Sibling(Snapshot(), sentinel, root, c, t);
      PlugWalk(d, c.right); PlugWalk(d, Painted(c.right, true));
      PaintAt(w, true, d, c.right);
    }

    /** The sibling has a child that shows red: with it turned to the outside, the sibling rises above the
        parent. `clean` is false when that child is the sentinel, which cannot be turned. */
    method LiftSiblingLeft(x: Order, w: Order, ghost c: Ctx, ghost t: Tree) returns (clean: bool)
      requires Linked() && shape == Plug(c, t) && t.Node? && t.item == x && !t.red && c.InL? && RootBlack(c, t)
      requires c.right.Node? && w == c.right.item
      requires Shown(InnerOf(c), sentinel.red) || Shown(OuterOf(c), sentinel.red)
      modifies this`root, this`shape, nodes`left, nodes`right, nodes`parent, nodes`red, sentinel`red
      ensures Linked() && InOrder(shape) == old(InOrder(shape)) && shape.Node? && !IsRed(shape) && shape.item == root
      ensures LevelledAt(c, t, old(sentinel.red))
           == if clean then RestoredAt(Top, shape, sentinel.red) else Colours.Broken
    {
      ghost var c' := c;
      var w' := w;
      Sibling(Snapshot(), sentinel, root, c, t);
      Focus(Snapshot(), sentinel, root, Top, shape);
      PlugNode(c, t);
      PlugRootBlack(c, t);
      if !w.right.red {
        TurnedLevelled(c, t, sentinel.red);
        if w.left == sentinel {
          return false;
        }
        w', c' := TurnSiblingLeft(x, w, c, t);
      }
      RaisedLevelled(c', t, sentinel.red);
      RaiseSiblingLeft(x, w', c', t);
      Focus(Snapshot(), sentinel, root, Top, shape);
      return true;
    }

    /** The sibling is missing: the sentinel stands for it and is painted red. */
    method PassSiblingLeft(x: Order, ghost c: Ctx, ghost t: Tree)
      requires Linked() && shape == Plug(c, t) && t.Node? && t.item == x && c.InL? && Beside(c).Leaf?
      modifies sentinel`red
      ensures Linked() && shape == Plug(c.up, Up(c, t, c.red)) && x.parent == c.item && sentinel.red
    {
      Sibling(Snapshot(), sentinel, root, c, t);
      UpPlug(c, t);
      sentinel.red := true;
      assert Snapshot() == old(Snapshot());
    }

    /** One turn of the loop for a left child. `clean` is false where the turn would rotate around the
        sentinel, and the turn stops there. */
    method DeleteStepLeft(x: Order, ghost c: Ctx, ghost t: Tree)
      returns (clean: bool, x': Order, ghost c': Ctx, ghost t': Tree)
      requires Linked() && shape == Plug(c, t) && t.Node? && t.item == x && !t.red && c.InL?
      requires RootBlack(c, t)
      modifies this`root, this`shape, nodes`left, nodes`right, nodes`parent, nodes`red, sentinel`red
      ensures Linked() && shape == Plug(c', t') && t'.Node? && t'.item == x' && RootBlack(c', t')
      ensures InOrder(shape) == old(InOrder(shape))
      ensures RestoredAt(c, t, old(sentinel.red)) == if clean then RestoredAt(c', t', sentinel.red) else Colours.Broken
      ensures !clean ==> !c'.Top? || !IsRed(t')
      ensures c'.Top? || IsRed(t') || Depth(c') < Depth(c) || !clean
    {
      Sibling(Snapshot(), sentinel, root, c, t);
      var w := x.parent.right;
      c', t', x', clean := c, t, x, false;
      LoweredRestored(c, t, sentinel.red);
      if w.red {
        if w == sentinel {
          MissingLevelled(c, t);
          return;
        }
        w, c' := LowerSiblingLeft(x, w, c, t);
      }
      clean, x', c', t' := LevelStepLeft(x, w, c', t);
    }

    /** The rest of the turn, once a red sibling is out of the way. */
    method LevelStepLeft(x: Order, w: Order, ghost c: Ctx, ghost t: Tree)
      returns (clean: bool, x': Order, ghost c': Ctx, ghost t': Tree)
      requires Linked() && shape == Plug(c, t) && t.Node? && t.item == x && !t.red && c.InL?
      requires RootBlack(c, t) && w == Root(sentinel, c.right)
      modifies this`root, this`shape, nodes`left, nodes`right, nodes`parent, nodes`red, sentinel`red
      ensures Linked() && shape == Plug(c', t') && t'.Node? && t'.item == x' && RootBlack(c', t')
      ensures InOrder(shape) == old(InOrder(shape))
      ensures LevelledAt(c, t, old(sentinel.red)) == if clean then RestoredAt(c', t', sentinel.red) else Colours.Broken
      ensures !clean ==> !c'.Top? || !IsRed(t')
      ensures clean ==> c'.Top? || (c' == c.up && t'.red == c.red)
    {
      Sibling(Snapshot(), sentinel, root, c, t);
      c', t', x', clean := c, t, x, false;
      if w == sentinel {
        MissingLevelled(c, t);
        if sentinel.red {
          return;
        }
        PassSiblingLeft(x, c, t);
        clean, x', c', t' := true, x.parent, c.up, Up(c, t, c.red);
      } else if !w.left.red && !w.right.red {
        EvenedLevelled(c, t, sentinel.red);
        EvenSiblingLeft(x, w, c, t);
        clean, x', c', t' := true, x.parent, c.up, Evened(c, t);
      } else {
        clean := LiftSiblingLeft(x, w, c, t);
        x', c', t' := root, Top, shape;
      }
    }

    /** A red sibling is rotated above the parent, so that the next sibling is not red. */
    method LowerSiblingRight(x: Order, w: Order, ghost c: Ctx, ghost t: Tree) returns (w': Order, ghost c': Ctx)
      requires Linked() && shape == Plug(c, t) && t.Node? && t.item == x && c.InR?
      requires IsRed(c.left) && w == c.left.item && RootBlack(c, t)
      modifies this`root, this`shape, nodes`right, nodes`left, nodes`parent, nodes`red
      ensures c' == LoweredRight(c) && RootBlack(c', t)
      ensures Linked() && shape == Plug(c', t) && InOrder(shape) == old(InOrder(shape))
      ensures w' == Root(sentinel, c.left.right)
    {
      Sibling(Snapshot(), sentinel, root, c, t);
      c' := LoweredRight(c);
      ghost var p := Node(Node(c.left.left, w, false, c.left.right), c.item, true, t);
      ghost var p0 := Up(c, t, c.red);
      RotatedRightSame(p);
      assert InOrder(c.left) == InOrder(p.left);
      PlugWalk(c.up, p0); PlugWalk(c.up, RotatedRight(p));
      PaintAt(w, false, BesideCtx(c, t, c.red), c.left);
      PaintAt(x.parent, true, c.up, Up(c, t, c.red).(left := p.left));
      RotateRight(x.parent, c.up, p);
      Sibling(Snapshot(), sentinel, root, c', t);
      w' := x.parent.left;
    }

    /** The sibling's inner child is red and its outer one is not: rotate the red to the outside. */
    method TurnSiblingRight(x: Order, w: Order, ghost c: Ctx, ghost t: Tree) returns (w': Order, ghost c': Ctx)
      requires Linked() && shape == Plug(c, t) && t.Node? && t.item == x && c.InR? && RootBlack(c, t)
      requires c.left.Node? && w == c.left.item && IsRed(c.left.right)
      modifies this`root, this`shape, nodes`right, nodes`left, nodes`parent, nodes`red
      ensures Linked() && shape == Plug(c', t) && InOrder(shape) == old(InOrder(shape)) && RootBlack(c', t)
      ensures c' == c.(left := TurnedOutLeft(c.left)) && w' == c'.left.item
    {
      Sibling(Snapshot(), sentinel, root, c, t);
      ghost var d := InL(c.up, c.item, c.red, t);
      ghost var w0 := c.left;
      ghost var v := Node(w0.left, w, true, Painted(w0.right, false));
      assert InOrder(v) == InOrder(w0);
      RotatedLeftSame(v);
      c' := c.(left := RotatedLeft(v));
      PlugWalk(d, w0); PlugWalk(d, RotatedLeft(v));
      PaintAt(w.right, false, InR(w0.left, w, w0.red, d), w0.right);
      PaintAt(w, true, d, w0.(right := Painted(w0.right, false)));
      RotateLeft(w, d, v);
      Sibling(Snapshot(), sentinel, root, c', t);
      w' := x.parent.left;
    }

    /** The sibling's outer child is red: one rotation at the parent ends the fix-up. */
    method RaiseSiblingRight(x: Order, w: Order, ghost c: Ctx, ghost t: Tree)
      requires Linked() && shape == Plug(c, t) && t.Node? && t.item == x && c.InR? && RootBlack(c, t)
      requires c.left.Node? && w == c.left.item
      modifies this`root, this`shape, nodes`right, nodes`left, nodes`parent, nodes`red, sentinel`red
      ensures Linked() && InOrder(shape) == old(InOrder(shape)) && shape.Node? && !IsRed(shape)
      ensures sentinel.red == (old(sentinel.red) && OuterOf(c).Node?)
      ensures shape == Plug(c.up, RaisedRight(c, t))
    {
      ghost var r, w0, d := c.red, c.left, InL(c.up, c.item, c.red, t);
      ghost var w1 := w0.(red := r, left := Painted(w0.left, false));
      ghost var p := Node(w1, c.item, false, t);
      RaisedRightWalk(c, t);
      PaintForRaiseRight(x, w, c, t);
      RotateRight(x.parent, c.up, p);
      PlugNode(c.up, RotatedRight(p));
      PlugRootBlack(c.up, RotatedRight(p));
    }

    /** The three recolourings before that rotation. */
    method PaintForRaiseRight(x: Order, w: Order, ghost c: Ctx, ghost t: Tree)
      requires Linked() && shape == Plug(c, t) && t.Node? && t.item == x && c.InR?
      requires c.left.Node? && w == c.left.item
      modifies this`shape, nodes`red, sentinel`red
      ensures Linked() && x.parent == c.item && sentinel.red == (old(sentinel.red) && OuterOf(c).Node?)
      ensures shape == Plug(c.up, Node(c.left.(red := c.red, left := Painted(c.left.left, false)), c.item, false, t))
    {
      Sibling(Snapshot(), sentinel, root, c, t);
      ghost var w0, d := c.left, InL(c.up, c.item, c.red, t);
      ghost var w1 := w0.(red := c.red);
      PaintAt(w, x.parent.red, d, w0);
      PaintAt(x.parent, false, c.up, Node(w1, c.item, c.red, t));
      PaintOuterRight(w, c, t);
    }

    /** The third one: the sibling's outer child, or the sentinel in its place. */
    method PaintOuterRight(w: Order, ghost c: Ctx, ghost t: Tree)
      requires t.Node? && c.InR? && c.left.Node? && w == c.left.item
      requires Linked() && shape == Plug(c.up, Node(c.left.(red := c.red), c.item, false, t))
      modifies this`shape, nodes`red, sentinel`red
      ensures Linked()
      ensures shape
        == Plug(c.up, Node(c.left.(red := c.red, left := Painted(c.left.left, false)), c.item, false, t))
      ensures sentinel.red == (old(sentinel.red) && OuterOf(c).Node?)
    {
      ghost var h := Snapshot();
      Sibling(h, sentinel, root, InR(c.left.(red := c.red), c.item, false, c.up), t);
      if w.left == sentinel {
        sentinel.red := false;
        assert Snapshot() == h;
      } else {
        PaintAt(w.left, false, InL(InL(c.up, c.item, false, t), w, c.red, c.left.right), c.left.left);
      }
    }

    /** The sibling has no red child and is painted red. */
    method EvenSiblingRight(x: Order, w: Order, ghost c: Ctx, ghost t: Tree)
      requires Linked() && shape == Plug(c, t) && t.Node? && t.item == x && c.InR?
      requires c.left.Node? && w == c.left.item
      modifies this`shape, w`red
      ensures Linked() && shape == Plug(c.up, Evened(c, t)) && InOrder(shape) == old(InOrder(shape))
      ensures x.parent == c.item
    {
      ghost var d := InL(c.up, c.item, c.red, t);
      Sibling(Snapshot(), sentinel, root, c, t);
      PlugWalk(d, c.left); PlugWalk(d, Painted(c.left, true));
      PaintAt(w, true, d, c.left);
    }

    /** The sibling has a child that shows red: with it turned to the outside, the sibling rises above the
        parent. `clean` is false when that child is the sentinel, which cannot be turned. */
    method LiftSiblingRight(x: Order, w: Order, ghost c: Ctx, ghost t: Tree) returns (clean: bool)
      requires Linked() && shape == Plug(c, t) && t.Node? && t.item == x && !t.red && c.InR? && RootBlack(c, t)
      requires c.left.Node? && w == c.left.item
      requires Shown(InnerOf(c), sentinel.red) || Shown(OuterOf(c), sentinel.red)
      modifies this`root, this`shape, nodes`right, nodes`left, nodes`parent, nodes`red, sentinel`red
      ensures Linked() && InOrder(shape) == old(InOrder(shape)) && shape.Node? && !IsRed(shape) && shape.item == root
      ensures LevelledAt(c, t, old(sentinel.red))
           == if clean then RestoredAt(Top, shape, sentinel.red) else Colours.Broken
    {
      ghost var c' := c;
      var w' := w;
      Sibling(Snapshot(), sentinel, root, c, t);
      Focus(Snapshot(), sentinel, root, Top, shape);
      PlugNode(c, t);
      PlugRootBlack(c, t);
      if !w.left.red {
        TurnedLevelled(c, t, sentinel.red);
        if w.right == sentinel {
          return false;
        }
        w', c' := TurnSiblingRight(x, w, c, t);
      }
      RaisedLevelled(c', t, sentinel.red);
      RaiseSiblingRight(x, w', c', t);
      Focus(Snapshot(), sentinel, root, Top, shape);
      return true;
    }

    /** The sibling is missing: the sentinel stands for it and is painted red. */
    method PassSiblingRight(x: Order, ghost c: Ctx, ghost t: Tree)
      requires Linked() && shape == Plug(c, t) && t.Node? && t.item == x && c.InR? && Beside(c).Leaf?
      modifies sentinel`red
      ensures Linked() && shape == Plug(c.up, Up(c, t, c.red)) && x.parent == c.item && sentinel.red
    {
      Sibling(Snapshot(), sentinel, root, c, t);
      UpPlug(c, t);
      sentinel.red := true;
      assert Snapshot() == old(Snapshot());
    }

    /** One turn of the loop for a right child. `clean` is false where the turn would rotate around the
        sentinel, and the turn stops there. */
    method DeleteStepRight(x: Order, ghost c: Ctx, ghost t: Tree)
      returns (clean: bool, x': Order, ghost c': Ctx, ghost t': Tree)
      requires Linked() && shape == Plug(c, t) && t.Node? && t.item == x && !t.red && c.InR?
      requires RootBlack(c, t)
      modifies this`root, this`shape, nodes`right, nodes`left, nodes`parent, nodes`red, sentinel`red
      ensures Linked() && shape == Plug(c', t') && t'.Node? && t'.item == x' && RootBlack(c', t')
      ensures InOrder(shape) == old(InOrder(shape))
      ensures RestoredAt(c, t, old(sentinel.red)) == if clean then RestoredAt(c', t', sentinel.red) else Colours.Broken
      ensures !clean ==> !c'.Top? || !IsRed(t')
      ensures c'.Top? || IsRed(t') || Depth(c') < Depth(c) || !clean
    {
      Sibling(Snapshot(), sentinel, root, c, t);
      var w := x.parent.left;
      c', t', x', clean := c, t, x, false;
      LoweredRestored(c, t, sentinel.red);
      if w.red {
        if w == sentinel {
          MissingLevelled(c, t);
          return;
        }
        w, c' := LowerSiblingRight(x, w, c, t);
      }
      clean, x', c', t' := LevelStepRight(x, w, c', t);
    }

    /** The rest of the turn, once a red sibling is out of the way. */
    method LevelStepRight(x: Order, w: Order, ghost c: Ctx, ghost t: Tree)
      returns (clean: bool, x': Order, ghost c': Ctx, ghost t': Tree)
      requires Linked() && shape == Plug(c, t) && t.Node? && t.item == x && !t.red && c.InR?
      requires RootBlack(c, t) && w == Root(sentinel, c.left)
      modifies this`root, this`shape, nodes`right, nodes`left, nodes`parent, nodes`red, sentinel`red
      ensures Linked() && shape == Plug(c', t') && t'.Node? && t'.item == x' && RootBlack(c', t')
      ensures InOrder(shape) == old(InOrder(shape))
      ensures LevelledAt(c, t, old(sentinel.red)) == if clean then RestoredAt(c', t', sentinel.red) else Colours.Broken
      ensures !clean ==> !c'.Top? || !IsRed(t')
      ensures clean ==> c'.Top? || (c' == c.up && t'.red == c.red)
    {
      Sibling(Snapshot(), sentinel, root, c, t);
      c', t', x', clean := c, t, x, false;
      if w == sentinel {
        MissingLevelled(c, t);
        if sentinel.red {
          return;
        }
        PassSiblingRight(x, c, t);
        clean, x', c', t' := true, x.parent, c.up, Up(c, t, c.red);
      } else if !w.right.red && !w.left.red {
        EvenedLevelled(c, t, sentinel.red);
        EvenSiblingRight(x, w, c, t);
        clean, x', c', t' := true, x.parent, c.up, Evened(c, t);
      } else {
        clean := LiftSiblingRight(x, w, c, t);
        x', c', t' := root, Top, shape;
      }
    }

    /** One turn of the loop. */
    method DeleteStep(x: Order, ghost c: Ctx, ghost t: Tree)
      returns (clean: bool, x': Order, ghost c': Ctx, ghost t': Tree)
      requires Linked() && shape == Plug(c, t) && t.Node? && t.item == x && !t.red && CtxRootBlack(c) && !c.Top?
      modifies this`root, this`shape, nodes`left, nodes`right, nodes`parent, nodes`red, sentinel`red
      ensures Linked() && shape == Plug(c', t') && t'.Node? && t'.item == x' && CtxRootBlack(c')
      ensures x' in nodes && x'.red == t'.red && (x' == root <==> c'.Top?)
      ensures InOrder(shape) == old(InOrder(shape))
      ensures RestoredAt(c, t, old(sentinel.red)) == if clean then RestoredAt(c', t', sentinel.red) else Colours.Broken
      ensures !clean ==> !IsRed(shape)
      ensures c'.Top? || IsRed(t') || Depth(c') < Depth(c) || !clean
    {
      Kin(Snapshot(), sentinel, root, c, t);
      if x == x.parent.left {
        clean, x', c', t' := DeleteStepLeft(x, c, t);
      } else {
        clean, x', c', t' := DeleteStepRight(x, c, t);
      }
      PlugRootBlack(c', t');
      Focus(Snapshot(), sentinel, root, c', t');
    }

    /** The removal fix-up. `clean` is false where it would rotate around the sentinel; it stops there. */
    method FixDelete(order: Order, ghost c0: Ctx, ghost t0: Tree) returns (clean: bool)
      requires Linked() && shape == Plug(c0, t0) && t0.Node? && t0.item == order && CtxRootBlack(c0)
      modifies this`root, this`shape, nodes`left, nodes`right, nodes`parent, nodes`red, sentinel`red
      ensures Linked() && InOrder(shape) == old(InOrder(shape)) && !IsRed(shape)
      ensures RestoredAt(c0, t0, old(sentinel.red)) == if clean then Kept() else Colours.Broken
    {
      var x := order;
      ghost var c, t := c0, t0;
      clean := true;
      Focus(Snapshot(), sentinel, root, c, t);
      while x != root && !x.red
        invariant Linked() && shape == Plug(c, t) && t.Node? && t.item == x && CtxRootBlack(c)
        invariant InOrder(shape) == old(InOrder(shape))
        invariant x in nodes && x.red == t.red && (x == root <==> c.Top?)
        invariant RestoredAt(c, t, sentinel.red) == RestoredAt(c0, t0, old(sentinel.red))
        invariant clean
        decreases if c.Top? || IsRed(t) then 0 else 1 + Depth(c)
      {
        clean, x, c, t := DeleteStep(x, c, t);
        if !clean {
          return;
        }
      }
      PaintedWalk(c, t);
      RestoredOver(c, t, sentinel.red);
      PaintAt(x, false, c, t);
    }

    /** The tree as it is now, as the result of a removal. */
    ghost function Kept(): Colours.Outcome
      reads this`shape, sentinel`red
    {
      Colours.Kept(Colours.Canvas(Coloured(shape), sentinel.red))
    }

    // ---- Removal of a node --------------------------------------------------------------

    method FindMin(node: Order, ghost c: Ctx, ghost t: Tree) returns (y: Order, ghost d: Ctx, ghost m: Tree)
      requires Linked() && shape == Plug(c, t) && t.Node? && t.item == node
      ensures t == Plug(d, m) && LeftSpine(d) && m.Node? && m.left.Leaf? && m.item == y
    {
      y, d, m := node, Top, t;
      Focus(Snapshot(), sentinel, root, c, t);
      while y.left != sentinel
        invariant t == Plug(d, m) && LeftSpine(d) && m.Node? && m.item == y
        invariant y in nodes && y.left == Root(sentinel, m.left) && (m.left.Node? ==> y.left != sentinel)
        decreases m
      {
        Down(d, m);
        y, d, m := y.left, InL(d, m.item, m.red, m.right), m.left;
        PlugCompose(c, d, m);
        Focus(Snapshot(), sentinel, root, Compose(c, d), m);
      }
    }

    /** The order that leaves its place has at most one child, `x`. */
    method SpliceAndFix(y: Order, x: Order, ghost c: Ctx, ghost t: Tree) returns (clean: bool)
      requires Linked() && !IsRed(shape) && shape == Plug(c, t)
      requires Spliceable(t) && t.item == y && x == Root(sentinel, OnlyChild(t))
      modifies this`root, this`shape, this`nodes, nodes`left, nodes`right, nodes`parent, nodes`red, sentinel`red
      ensures Linked() && nodes == old(nodes) - {y} && !IsRed(shape)
      ensures Contents() == (Before(c) + InOrder(t.left)) + (InOrder(t.right) + After(c))
      ensures SplicedAt(c, t, old(sentinel.red)) == if clean then Kept() else Colours.Broken
    {
      clean := true;
      SplicedWalk(c, t);
      SplicedLoose(c, t, sentinel.red);
      PlugRootBlack(c, t);
      PlugRootBlack(c, OnlyChild(t));
      Focus(Snapshot(), sentinel, root, c, t);
      var yRed := y.red;
      SpliceOut(y, x, c, t);
      if !yRed && x != sentinel {
        clean := FixDelete(x, c, OnlyChild(t));
      }
    }

    /** The successor `y` of `z` leaves its own place and takes that of `z`. */
    method Succeed(z: Order, y: Order, x: Order, ghost c: Ctx, ghost t: Tree, ghost d: Ctx, ghost m: Tree)
      requires Linked() && shape == Plug(c, t) && t.Node? && t.item == z
      requires t.right == Plug(d, m) && LeftSpine(d) && m.Node? && m.left.Leaf? && m.item == y
      requires x == Root(sentinel, m.right) && y in nodes && y != z
      modifies this`root, this`shape, this`nodes, nodes`left, nodes`right, nodes`parent, nodes`red
      ensures Linked() && nodes == old(nodes) - {z} && shape == Plug(c, Succeeded(t, d, m))
    {
      ghost var cc := Compose(RightOf(c, t), d);
      ghost var q := Node(t.left, z, t.red, Plug(d, m.right));
      PlugCompose(RightOf(c, t), d, m);
      PlugCompose(RightOf(c, t), d, m.right);
      Down(c, t);
      SpliceOut(y, x, cc, m);
      Substitute(z, y, c, q);
    }

    method SucceedAndFix(z: Order, ghost c: Ctx, ghost t: Tree) returns (clean: bool)
      requires Linked() && !IsRed(shape) && shape == Plug(c, t)
      requires t.Node? && !Spliceable(t) && t.item == z
      modifies this`root, this`shape, this`nodes, nodes`left, nodes`right, nodes`parent, nodes`red, sentinel`red
      ensures Linked() && nodes == old(nodes) - {z} && !IsRed(shape)
      ensures Contents() == (Before(c) + InOrder(t.left)) + (InOrder(t.right) + After(c))
      ensures RankOf(c, t) < |InOrder(old(shape))|
      ensures Cut(old(shape), old(sentinel.red), RankOf(c, t)) == if clean then Kept() else Colours.Broken
    {
      clean := true;
      var y;
      ghost var d, m;
      Focus(Snapshot(), sentinel, root, c, t);
      Down(c, t);
      y, d, m := FindMin(z.right, RightOf(c, t), t.right);
      SuccessorLinks(c, t, d, m);
      var x, yRed := y.right, y.red;
      SucceededWalk(c, t, d, m);
      SucceededRoot(c, t, d, m);
      CutSucceeded(c, t, d, m, sentinel.red);
      SucceededColours(c, t, d, m, sentinel.red);
      Succeed(z, y, x, c, t, d, m);
      if !yRed && x != sentinel {
        clean := FixDelete(x, Compose(RightOf(c, t.(item := y)), d), m.right);
      }
    }

    /** Where the links show the successor and its right child. */
    lemma SuccessorLinks(c: Ctx, t: Tree, d: Ctx, m: Tree)
      requires Linked() && shape == Plug(c, t) && t.Node? && t.right == Plug(d, m) && m.Node?
      ensures m.item in nodes && m.item != t.item && m.item.right == Root(sentinel, m.right) && m.item.red == m.red
      ensures m.right.Node? ==> m.right.item in nodes && m.right.item != sentinel
    {
      var cc := Compose(RightOf(c, t), d);
      PlugCompose(RightOf(c, t), d, m);
      Down(c, t);
      Focus(Snapshot(), sentinel, root, cc, m);
      PlugElems(d, m);
      PlugDistinct(c, t);
    }

    /** The successor inherits the colour of the order it replaces, so the root stays black. */
    lemma SucceededRoot(c: Ctx, t: Tree, d: Ctx, m: Tree)
      requires shape == Plug(c, t) && !IsRed(shape) && t.Node? && t.right == Plug(d, m) && m.Node?
      ensures var cc := Compose(RightOf(c, t.(item := m.item)), d);
        Plug(c, Succeeded(t, d, m)) == Plug(cc, m.right) && CtxRootBlack(cc) && !IsRed(Plug(cc, m.right))
    {
      var t' := t.(item := m.item);
      var cc := Compose(RightOf(c, t'), d);
      PlugCompose(RightOf(c, t'), d, m.right);
      ComposeTop(RightOf(c, t'), d);
      PlugRootBlack(c, t);
      PlugRootBlack(c, Succeeded(t, d, m));
      PlugRootBlack(cc, m.right);
    }

    /** Everything a removal does to the links. `c` and `t` say where in the tree `order` is. */
    method RemoveNode(order: Order, ghost c: Ctx, ghost t: Tree) returns (clean: bool)
      requires Linked() && !IsRed(shape)
      requires shape == Plug(c, t) && t.Node? && t.item == order
      modifies this`root, this`shape, this`nodes, nodes`left, nodes`right, nodes`parent, nodes`red, sentinel`red
      ensures Linked() && nodes == old(nodes) - {order} && !IsRed(shape)
      ensures RankOf(c, t) < |old(Contents())| && Contents() == Without(old(Contents()), RankOf(c, t))
      ensures Cut(old(shape), old(sentinel.red), RankOf(c, t)) == if clean then Kept() else Colours.Broken
    {
      Focus(Snapshot(), sentinel, root, c, t);
      RankWalk(c, t);
      if Spliceable(t) { CutSpliceable(c, t, sentinel.red); }
      if order.left == sentinel {
        clean := SpliceAndFix(order, order.right, c, t);
      } else if order.right == sentinel {
        clean := SpliceAndFix(order, order.left, c, t);
      } else {
        clean := SucceedAndFix(order, c, t);
      }
    }

    /** The `i`-th order leaves the tree; any orders `s` keep their keys `k`. */
    method RemoveAt(order: Order, ghost i: nat, ghost s: seq<Order>, ghost k: seq<Key>) returns (clean: bool)
      requires Linked() && !IsRed(shape) && i < |Contents()| && Contents()[i] == order && KeysOf(s, k)
      modifies this`root, this`shape, this`nodes, nodes`left, nodes`right, nodes`parent, nodes`red, sentinel`red
      ensures Linked() && nodes == old(nodes) - {order} && !IsRed(shape) && KeysOf(s, k)
      ensures Contents() == Without(old(Contents()), i)
      ensures Cut(old(shape), old(sentinel.red), i) == if clean then Kept() else Colours.Broken
      ensures levels == old(levels) && queues == old(queues) && orderMap == old(orderMap) && view == old(view)
      ensures keys == old(keys)
    {
      ghost var c, t := SpotAt(order, i);
      clean := RemoveNode(order, c, t);
    }

    /** The subtree of the `i`-th order. */
    lemma SpotAt(order: Order, i: nat) returns (c: Ctx, t: Tree)
      requires Linked() && i < |Contents()| && Contents()[i] == order
      ensures shape == Plug(c, t) && t.Node? && t.item == order && RankOf(c, t) == i && order in nodes
    {
      WalkElems(shape);
      DistinctWalk(shape);
      assert order in Contents();
      c, t := SpotOf(Top, shape, order);
      RankWalk(c, t);
    }

    method RemoveTree(order: Order, ghost i: nat) returns (clean: bool)
      requires TreeValid() && i < |Contents()| && Contents()[i] == order
      modifies this`root, this`shape, this`nodes, this`keys, nodes`left, nodes`right, nodes`parent, nodes`red,
               sentinel`red
      ensures levels == old(levels) && queues == old(queues) && orderMap == old(orderMap) && view == old(view)
      ensures TreeValid() && nodes == old(nodes) - {order}
      ensures Contents() == Without(old(Contents()), i) && keys == Without(old(keys), i)
      ensures Cut(old(shape), old(sentinel.red), i) == if clean then Kept() else Colours.Broken
    {
      ghost var keys' := Without(keys, i);
      KeysWithout(isBuy, Contents(), keys, i);
      clean := RemoveAt(order, i, Without(Contents(), i), keys');
      WalkElems(shape);
      keys := keys';
    }

    /** The tree stays as it is while `order` leaves list, level and id map. */
    method Delist(order: Order, ghost j: nat, ghost s: seq<Order>, ghost v: seq<Ord>)
      requires TreeValid() && Listed(nodes) && Mirrors(s, v)
      requires order.price in queues && j < |queues[order.price].orders| && queues[order.price].orders[j] == order
      modifies this`levels, this`queues, this`orderMap, this`view, nodes`prev, nodes`next
      ensures TreeValid() && Listed(nodes - {order}) && Mirrors(s, v)
      ensures shape == old(shape) && nodes == old(nodes)
      ensures view == v && orderMap == old(orderMap) - {order.id}
      ensures queues == Dequeued(old(queues), order.price, j)
      ensures TotalLowered(old(levels), levels, order.price, order.remaining)
    {
      Exit(order, j, nodes, v);
      TreeKept();
    }

    /** Lists stay as they are while `order`, the `i`-th of the walk, leaves the tree. */
    method Shrink(order: Order, ghost i: nat, ghost rest: set<Order>, ghost s: seq<Order>, ghost v: seq<Ord>)
        returns (clean: bool)
      requires TreeValid() && i < |Contents()| && Contents()[i] == order
      requires rest == nodes - {order} && Listed(rest) && Mirrors(s, v)
      modifies this`root, this`shape, this`nodes, this`keys, nodes`left, nodes`right, nodes`parent, nodes`red,
               sentinel`red
      ensures TreeValid() && nodes == rest && Listed(rest) && Mirrors(s, v)
      ensures levels == old(levels) && queues == old(queues) && orderMap == old(orderMap) && view == old(view)
      ensures Contents() == Without(old(Contents()), i) && keys == Without(old(keys), i)
      ensures Cut(old(shape), old(sentinel.red), i) == if clean then Kept() else Colours.Broken
    {
      clean := RemoveTree(order, i);
      ListsKept(rest);
    }

    /** Where `order` sits in the walk. */
    lemma PlaceInWalk(order: Order) returns (i: nat)
      requires Linked() && order in nodes
      ensures i < |Contents()| && Contents()[i] == order && Unique(Contents())
    {
      WalkElems(shape);
      DistinctWalk(shape);
      assert order in Contents();
      i :| 0 <= i < |Contents()| && Contents()[i] == order;
    }

    /** Where `order` sits in its list. */
    lemma PlaceInList(order: Order) returns (j: nat)
      requires Listed(nodes) && order in nodes
      ensures order.price in queues && j < |queues[order.price].orders| && queues[order.price].orders[j] == order
      ensures Unique(queues[order.price].orders)
    {
      assert LevelOf(levels[order.price], order.price, queues[order.price]);
      ChainedUnique(queues[order.price].orders);
      j :| 0 <= j < |queues[order.price].orders| && queues[order.price].orders[j] == order;
    }

    /** Where `order` sits, and what the walk and its values will be without it. */
    lemma ReadyToRemove(order: Order) returns (i: nat, j: nat)
      requires Valid() && order in nodes
      ensures i < |Contents()| && Contents()[i] == order && i < |view| && view[i] == order.View()
      ensures order.price in queues && j < |queues[order.price].orders| && queues[order.price].orders[j] == order
      ensures Mirrors(Without(Contents(), i), Without(view, i))
      ensures ListsFollow(queues, Contents()) ==>
        ListsFollow(Dequeued(queues, order.price, j), Without(Contents(), i))
    {
      i := PlaceInWalk(order);
      j := PlaceInList(order);
      MirrorsWithout(Contents(), view, i);
      if ListsFollow(queues, Contents()) { RemoveKeepsViews(queues, Contents(), i, j); }
    }

    /** A removal past the look-up. */
    method TakeOut(order: Order, ghost i: nat, ghost j: nat, ghost s: seq<Order>, ghost v: seq<Ord>)
        returns (clean: bool)
      requires Valid() && order in nodes
      requires i < |Contents()| && Contents()[i] == order
      requires order.price in queues && j < |queues[order.price].orders| && queues[order.price].orders[j] == order
      requires i < |view| && view[i].remaining == order.remaining && view[i].price == order.price
      requires s == Without(Contents(), i) && v == Without(view, i) && Mirrors(s, v)
      modifies this`root, this`shape, this`nodes, this`keys, this`levels, this`queues, this`orderMap, this`view,
               nodes`left, nodes`right, nodes`parent, nodes`red, nodes`prev, nodes`next, sentinel`red
      ensures Valid() && Book() == Market.WithoutOrder(old(Book()), i)
      ensures nodes == old(nodes) - {order} && orderMap == old(orderMap) - {order.id}
      ensures Contents() == s && queues == Dequeued(old(queues), order.price, j)
      ensures Cut(old(shape), old(sentinel.red), i) == if clean then Kept() else Colours.Broken
    {
      ghost var m, q, w, ids, ns := levels, queues, view, orderMap, nodes;
      Delist(order, j, s, v);
      clean := Shrink(order, i, nodes - {order}, s, v);
      assert IdsAgree(orderMap, nodes) by { IdsDropped(ids, ns, order); }
      assert Book() == Market.WithoutOrder(old(Book()), i) by { WithoutOrderIs(w, m, levels, q, i, order.price, j); }
    }

    /** The order, the `i`-th of the walk and the `j`-th of its list, leaves tree, list, level and id map. When
        `clean` is false the fix-up would have rotated around the sentinel; nothing is promised then. */
    method Remove(order: Order) returns (ok: bool, clean: bool, ghost i: nat, ghost j: nat)
      requires Valid() && (order.id in orderMap ==> orderMap[order.id] == order)
      modifies this`root, this`shape, this`nodes, this`keys, this`levels, this`queues, this`orderMap, this`view,
               nodes`left, nodes`right, nodes`parent, nodes`red, nodes`prev, nodes`next, sentinel`red
      ensures ok <==> order in old(nodes)
      ensures !ok ==> unchanged(this) && sentinel.red == old(sentinel.red)
      ensures ok ==> i < |old(Contents())| && old(Contents())[i] == order
      ensures ok ==> Cut(old(shape), old(sentinel.red), i) == if clean then Kept() else Colours.Broken
      ensures ok && clean ==> Valid() && Book() == Market.WithoutOrder(old(Book()), i)
      ensures ok && clean ==> nodes == old(nodes) - {order} && orderMap == old(orderMap) - {order.id}
      ensures ok && clean ==> Contents() == Without(old(Contents()), i)
      ensures ok && clean ==>
        && order.price in old(queues) && j < |old(queues)[order.price].orders|
        && old(queues)[order.price].orders[j] == order
        && queues == Dequeued(old(queues), order.price, j)
      ensures ok && clean && old(ListsFollow(queues, Contents())) ==> ListsFollow(queues, Contents())
      ensures ok && IsRedBlack(old(shape)) ==>
        && clean && sentinel.red == old(sentinel.red) && RedBlack.NoRedRed(Coloured(shape))
        && (IsRedBlack(shape) <==> StaysRedBlack(old(shape), i))
    {
      ok, clean, i, j := false, true, 0, 0;
      if order.id in orderMap {
        ok := true;
        i, j := ReadyToRemove(order);
        if IsRedBlack(shape) { CutStays(shape, sentinel.red, i); }
        clean := TakeOut(order, i, j, Without(Contents(), i), Without(view, i));
      }
    }

    // ---- Quantities ---------------------------------------------------------------------

    /** What remains of an order may be `quantity`: nothing only where something was traded. */
    ghost predicate MayRemain(order: Order, quantity: int)
      reads this`queues
    {
      quantity > 0 || (quantity == 0 && order.price in queues && queues[order.price].traded > 0)
    }

    /** One order's remaining quantity changed, and its level's total, or the record of what was traded
        there, with it. */
    twostate lemma RequantifiedLevels(order: Order)
      requires old(Listed(nodes)) && nodes == old(nodes)
      requires order in nodes && order.price in old(queues) && order in old(queues)[order.price].orders
      requires MayRemain(order, order.remaining)
      requires forall o :: o in nodes ==> o.prev == old(o.prev) && o.next == old(o.next)
      requires forall o :: o in nodes && o != order ==> o.remaining == old(o.remaining)
      requires order.price in queues && queues[order.price].traded >= old(queues)[order.price].traded
      requires queues == old(queues)[order.price := old(queues)[order.price].(traded := queues[order.price].traded)]
      requires order.price in old(levels)
      requires levels == old(levels)[order.price := old(levels)[order.price].(
                 total := old(levels)[order.price].total - old(order.remaining) + order.remaining
                          + queues[order.price].traded - old(queues)[order.price].traded)]
      ensures Listed(nodes)
    {
      forall p | p in queues ensures LevelOf(levels[p], p, queues[p]) {
        assert old(LevelOf(levels[p], p, queues[p]));
        assert forall i :: 0 <= i < |queues[p].orders| ==> queues[p].orders[i] in queues[p].orders;
        if p == order.price {
          ChainedUnique(queues[p].orders);
          TotalChanged((queues[p].orders, order));
        } else {
          assert Total(queues[p].orders) == old(Total(queues[p].orders));
        }
        assert Chained(queues[p].orders);
      }
    }

    /** Of the order `k.0` the quantity `k.1` was traded. */
    twostate lemma TradedLevels(k: (Order, int))
      requires old(Listed(nodes)) && nodes == old(nodes) && levels == old(levels)
      requires k.0 in nodes && k.0.price in old(queues) && 0 < k.1
      requires k.0.remaining == old(k.0.remaining) - k.1 >= 0
      requires queues == AfterTrade(old(queues), k.0.price, k.1)
      requires forall o :: o in nodes ==> o.prev == old(o.prev) && o.next == old(o.next)
      requires forall o :: o in nodes && o != k.0 ==> o.remaining == old(o.remaining)
      ensures Listed(nodes)
    {
      RequantifiedLevels(k.0);
    }

    /** The engine trades `quantity` of an order of the book; the level total stays as it is. */
    method Fill(order: Order, quantity: int, ghost i: nat)
      requires Valid() && i < |Contents()| && Contents()[i] == order && 0 < quantity <= order.remaining
      modifies this`queues, this`view, order`filled, order`remaining
      ensures Valid() && order.View() == Matching.Traded(old(order.View()), quantity)
      ensures Book() == Market.WithTrade(old(Book()), i, quantity)
      ensures ListsFollow(queues, Contents()) <==> old(ListsFollow(queues, Contents()))
      ensures shape == old(shape) && nodes == old(nodes) && sentinel.red == old(sentinel.red)
    {
      assert order in Contents();
      ghost var n := PlaceInWalk(order);
      ghost var m, q, w := levels, queues, view;
      SameLists(q, order.price, quantity, Contents());
      WithTradeIs(w, m, q, i, order.price, quantity);
      TradeFilled(order, quantity, Contents(), w, i);
    }

    /** Of the orders `s` only the `i`-th has another value than in `v`. */
    method TradeFilled(order: Order, quantity: int, ghost s: seq<Order>, ghost v: seq<Ord>, ghost i: nat)
      requires TreeValid() && Listed(nodes) && order in nodes && 0 < quantity <= order.remaining
      requires Mirrors(s, v) && i < |s| && s[i] == order && Unique(s)
      modifies this`queues, this`view, order`filled, order`remaining
      ensures TreeValid() && Listed(nodes) && order.View() == Matching.Traded(old(order.View()), quantity)
      ensures order.price in old(queues) && queues == AfterTrade(old(queues), order.price, quantity)
      ensures view == v[i := order.View()] && Mirrors(s, view)
      ensures shape == old(shape) && nodes == old(nodes) && orderMap == old(orderMap) && levels == old(levels)
      ensures sentinel.red == old(sentinel.red)
    {
      TradeInLevel(order, quantity, v[i := Matching.Traded(order.View(), quantity)]);
      TreeKept();
    }

    /** What a trade writes, with the record of it. */
    method Execute(order: Order, quantity: int, ghost q: Queues, ghost v: seq<Ord>)
      modifies this`queues, this`view, order`filled, order`remaining
      ensures order.View() == Matching.Traded(old(order.View()), quantity) && queues == q && view == v
    {
      order.filled := order.filled + quantity;
      order.remaining := order.remaining - quantity;
      queues, view := q, v;
    }

    method TradeInLevel(order: Order, quantity: int, ghost v: seq<Ord>)
      requires Listed(nodes) && order in nodes && 0 < quantity <= order.remaining
      modifies this`queues, this`view, order`filled, order`remaining
      ensures Listed(nodes) && order.View() == Matching.Traded(old(order.View()), quantity)
      ensures order.price in old(queues) && queues == AfterTrade(old(queues), order.price, quantity)
      ensures SameTree() && orderMap == old(orderMap) && levels == old(levels) && view == v
      ensures sentinel.red == old(sentinel.red)
    {
      Execute(order, quantity, AfterTrade(queues, order.price, quantity), v);
      TradedLevels((order, quantity));
    }

    method SetRemaining(order: Order, quantity: int)
      requires Listed(nodes) && order in nodes
      modifies this`levels, order`remaining
      ensures order.remaining == quantity && order.price in old(levels)
      ensures levels == old(levels)[order.price :=
        Requantified(old(levels)[order.price], old(order.remaining), quantity)]
      ensures Listed(nodes) <==> MayRemain(order, quantity)
      ensures SameTree()
    {
      var before := order.remaining;
      TotalAbove(queues[order.price].orders, order);
      order.remaining := quantity;
      if order.price in levels {
        var level := levels[order.price];
        level := level.(total := level.total - before + quantity);
        if level.total < 0 {
          level := level.(total := 0);
        }
        levels := levels[order.price := level];
      }
      if MayRemain(order, quantity) { RequantifiedLevels(order); }
    }

    /** Of the orders `s` only the `i`-th has another value than in `v`. */
    method SetQuantity(order: Order, quantity: int, ghost s: seq<Order>, ghost v: seq<Ord>, ghost i: nat)
      requires TreeValid() && Listed(nodes) && order in nodes
      requires Mirrors(s, v) && i < |s| && s[i] == order && Unique(s)
      modifies this`levels, this`view, order`remaining
      ensures order.remaining == quantity && order.price in old(levels)
      ensures levels == old(levels)[order.price :=
        Requantified(old(levels)[order.price], old(order.remaining), quantity)]
      ensures TreeValid() && (Listed(nodes) <==> MayRemain(order, quantity))
      ensures view == v[i := order.View()] && Mirrors(s, view)
      ensures shape == old(shape) && nodes == old(nodes) && orderMap == old(orderMap)
    {
      SetRemaining(order, quantity);
      view := v[i := order.View()];
      TreeKept();
    }

    /** The level total follows the new quantity. The side stays sound exactly when that is positive, or
        zero where something was traded: an order with nothing remaining is left in the book. */
    method UpdateQuantity(order: Order, quantity: int) returns (ok: bool, ghost i: nat)
      requires Valid() && (order.id in orderMap ==> orderMap[order.id] == order)
      modifies this`levels, this`view, order`remaining
      ensures ok <==> order in nodes
      ensures !ok ==> levels == old(levels) && view == old(view) && order.remaining == old(order.remaining)
      ensures ok ==> order.remaining == quantity && i < |Contents()| && Contents()[i] == order
      ensures ok ==> i < |old(view)| && Book() == Market.WithQuantity(old(Book()), i, quantity)
      ensures ok ==>
        && order.price in old(levels)
        && levels == old(levels)[order.price := Requantified(old(levels)[order.price], old(order.remaining), quantity)]
        && var t := old(levels)[order.price].total - old(order.remaining) + quantity;
           levels[order.price].total == if t < 0 then 0 else t
      ensures Valid() <==> !ok || MayRemain(order, quantity)
      ensures shape == old(shape) && queues == old(queues) && nodes == old(nodes) && sentinel.red == old(sentinel.red)
    {
      if order.id !in orderMap {
        return false, 0;
      }
      i := PlaceInWalk(order);
      ghost var m, w := levels, view;
      SetQuantity(order, quantity, Contents(), view, i);
      WithQuantityIs(w, m, levels, queues, i, order.price, quantity);
      return true, i;
    }

    // ---- Queries ------------------------------------------------------------------------

    /** The front of the queue, unless it lies a thousand steps or more to the left. */
    method BestOrder() returns (best: Order?)
      requires Valid()
      ensures best == null <==> Contents() == [] || Colours.LeftDepth(Coloured(shape)) >= 1000
      ensures best != null ==> Contents() != [] && best == Contents()[0]
    {
      RootEmpty();
      if root == sentinel {
        return null;
      }
      best := Leftmost();
    }

    /** The descent along the left spine, with its safety limit. */
    method Leftmost() returns (best: Order?)
      requires TreeValid() && shape.Node?
      ensures best == null <==> Colours.LeftDepth(Coloured(shape)) >= 1000
      ensures best != null ==> Contents() != [] && best == Contents()[0]
    {
      RootEmpty();
      best := root;
      var depth := 0;
      ghost var d, m := Top, shape;
      while best.left != sentinel && depth < 1000
        invariant shape == Plug(d, m) && LeftSpine(d) && m.Node? && m.item == best
        invariant best in nodes && best.left == Root(sentinel, m.left) && (m.left.Node? ==> best.left != sentinel)
        invariant depth == Depth(d) <= 1000
        decreases m
      {
        Down(d, m);
        best, depth := best.left, depth + 1;
        d, m := InL(d, m.item, m.red, m.right), m.left;
        Focus(Snapshot(), sentinel, root, d, m);
      }
      SpineDepth(d, m);
      if depth >= 1000 {
        return null;
      }
      SpineFirst(d, m);
    }

    lemma RootEmpty()
      requires Linked()
      ensures root == sentinel <==> Contents() == []
      ensures shape.Node? ==> root in nodes && shape.item == root && root.left == Root(sentinel, shape.left)
      ensures shape.Node? && shape.left.Node? ==> root.left != sentinel
    {
      if shape.Node? { Focus(Snapshot(), sentinel, root, Top, shape); }
    }

    method BestPrice() returns (price: int)
      requires Valid()
      ensures price == if Contents() == [] then 0 else Contents()[0].price
    {
      RootEmpty();
      if root == sentinel {
        return 0;
      }
      var best := root;
      ghost var d, m := Top, shape;
      while best.left != sentinel
        invariant shape == Plug(d, m) && LeftSpine(d) && m.Node? && m.item == best
        invariant best in nodes && best.left == Root(sentinel, m.left) && (m.left.Node? ==> best.left != sentinel)
        decreases m
      {
        Down(d, m);
        best := best.left;
        d, m := InL(d, m.item, m.red, m.right), m.left;
        Focus(Snapshot(), sentinel, root, d, m);
      }
      SpineFirst(d, m);
      return best.price;
    }

    /** The first order of the best level is the front of the queue. */
    method BestLevel() returns (level: PriceLevel, found: bool)
      requires Valid() && forall o :: o in nodes ==> o.price > 0
      ensures found <==> Contents() != []
      ensures found ==> level.price == Contents()[0].price && level.price in queues
      ensures found ==> level.total == Total(queues[level.price].orders) + queues[level.price].traded
      ensures found && ListsFollow(queues, Contents()) ==> level.first == Contents()[0]
    {
      level, found := PriceLevel(0, 0, null, null), false;
      var price := BestPrice();
      WalkElems(shape);
      if price == 0 {
        return;
      }
      FrontOfBoth();
      if price in levels {
        level, found := levels[price], true;
      }
    }

    lemma FrontOfBoth()
      requires TreeValid() && Listed(nodes) && Contents() != []
      ensures Contents()[0].price in queues
        && LevelOf(levels[Contents()[0].price], Contents()[0].price, queues[Contents()[0].price])
      ensures ListsFollow(queues, Contents()) ==> queues[Contents()[0].price].orders[0] == Contents()[0]
    {
      WalkElems(shape);
      assert Contents()[0] in Contents();
    }

    /** The `n` best levels, best first. */
    method GetDepth(n: nat) returns (r: seq<PriceLevel>)
      requires Valid()
      ensures |r| == if n < |levels| then n else |levels|
      ensures forall i :: 0 <= i < |r| ==> r[i].price in levels && r[i] == levels[r[i].price]
      ensures forall i, j :: 0 <= i < j < |r| ==> PriceBetter(isBuy, r[i].price, r[j].price)
      ensures forall p, i :: p in levels && 0 <= i < |r| && (forall j :: 0 <= j < |r| ==> r[j].price != p) ==>
                PriceBetter(isBuy, r[i].price, p)
    {
      LevelsPositive();
      r := FirstLevels(n);
    }

    lemma LevelsPositive()
      requires TreeValid() && Listed(nodes)
      ensures forall p :: p in levels ==> levels[p].price == p && levels[p].total > 0
    {
      forall p | p in levels ensures levels[p].price == p && levels[p].total > 0 {
        assert LevelOf(levels[p], p, queues[p]);
        LevelPositive(levels[p], p, queues[p]);
      }
    }

    method FirstLevels(n: nat) returns (r: seq<PriceLevel>)
      requires forall p :: p in levels ==> levels[p].price == p && levels[p].total > 0
      ensures |r| == if n < |levels| then n else |levels|
      ensures forall i :: 0 <= i < |r| ==> r[i].price in levels && r[i] == levels[r[i].price]
      ensures forall i, j :: 0 <= i < j < |r| ==> PriceBetter(isBuy, r[i].price, r[j].price)
      ensures forall p, i :: p in levels && 0 <= i < |r| && (forall j :: 0 <= j < |r| ==> r[j].price != p) ==>
                PriceBetter(isBuy, r[i].price, p)
    {
      r := [];
      var rest := levels.Items;
      while rest != {} && |r| < n
        invariant |r| <= n && rest <= levels.Items && |r| + |rest| == |levels|
        invariant forall i :: 0 <= i < |r| ==> r[i].price in levels && r[i] == levels[r[i].price]
        invariant forall i, e :: 0 <= i < |r| && e in rest ==> PriceBetter(isBuy, r[i].price, e.0)
        invariant forall i, j :: 0 <= i < j < |r| ==> PriceBetter(isBuy, r[i].price, r[j].price)
        invariant forall e :: e in levels.Items && e !in rest ==> exists i :: 0 <= i < |r| && r[i].price == e.0
        decreases |rest|
      {
        var e := BestOf(rest);
        rest := rest - {e};
        if e.1.total > 0 {
          ghost var r0 := r;
          r := r + [e.1];
          assert r[|r0|].price == e.0;
          assert forall i :: 0 <= i < |r0| ==> r[i] == r0[i];
        }
      }
      assert forall p :: p in levels ==> (p, levels[p]) in levels.Items;
    }

    /** The next entry in the level map's order. */
    method BestOf(s: set<(int, PriceLevel)>) returns (e: (int, PriceLevel))
      requires s != {} && forall x, y :: x in s && y in s && x.0 == y.0 ==> x == y
      ensures e in s && forall x :: x in s && x != e ==> PriceBetter(isBuy, e.0, x.0)
    {
      e :| e in s;
      var rest := s - {e};
      while rest != {}
        invariant rest <= s && e in s && e !in rest
        invariant forall x :: x in s && x !in rest && x != e ==> PriceBetter(isBuy, e.0, x.0)
        decreases |rest|
      {
        var x :| x in rest;
        if PriceBetter(isBuy, x.0, e.0) { e := x; }
        rest := rest - {x};
      }
    }
  }

  /** The id map `m` holds exactly the orders `ns`, each under its own id. */
  ghost predicate IdsAgree(m: map<nat, Order>, ns: set<Order>) {
    && (forall id {:trigger m[id]} {:trigger id in m} :: id in m ==> m[id] in ns && m[id].id == id)
    && forall o {:trigger o in ns} :: o in ns ==> o.id in m && m[o.id] == o
  }

  lemma IdsAdded(m: map<nat, Order>, ns: set<Order>, order: Order)
    requires IdsAgree(m, ns) && order.id !in m
    ensures IdsAgree(m[order.id := order], ns + {order})
  {
  }

  lemma IdsDropped(m: map<nat, Order>, ns: set<Order>, order: Order)
    requires IdsAgree(m, ns) && order in ns
    ensures IdsAgree(m - {order.id}, ns - {order})
  {
  }

  /** The lists `q` hold exactly the orders `ns`, each at its price. */
  ghost predicate HeldBy(q: Queues, ns: set<Order>) {
    && (forall p, o {:trigger o in q[p].orders} :: p in q && o in q[p].orders ==> o in ns)
    && forall o {:trigger o in ns} :: o in ns ==> o.price in q && o in q[o.price].orders
  }

  lemma EnqueuedHolds(q: Queues, order: Order, ns: set<Order>)
    requires HeldBy(q, ns)
    ensures HeldBy(Enqueued(q, order), ns + {order})
  {
    var q' := Enqueued(q, order);
    assert order in q'[order.price].orders;
  }

  lemma DequeuedHolds(q: Queues, order: Order, j: nat, ns: set<Order>)
    requires HeldBy(q, ns) && order.price in q && Unique(q[order.price].orders)
    requires j < |q[order.price].orders| && q[order.price].orders[j] == order
    requires forall p, o :: p in q && o in q[p].orders ==> o.price == p
    ensures HeldBy(Dequeued(q, order.price, j), ns - {order})
  {
    var s, q' := q[order.price].orders, Dequeued(q, order.price, j);
    forall o | o in ns - {order} ensures o.price in q' && o in q'[o.price].orders {
      if o.price == order.price {
        var k :| 0 <= k < |s| && s[k] == o;
        assert Without(s, j)[if k < j then k else k - 1] == o;
      }
    }
    forall p, o | p in q' && o in q'[p].orders ensures o in ns - {order} {
      if p == order.price {
        var k :| 0 <= k < |q'[p].orders| && q'[p].orders[k] == o;
        assert s[if k < j then k else k + 1] == o;
      }
    }
  }

  ghost function TotalsOf(m: map<int, PriceLevel>): map<int, int> { map p | p in m :: m[p].total }

  /** The total at `p` went up by `q`; a level that was not there was made. */
  ghost predicate TotalRaised(m: map<int, PriceLevel>, m': map<int, PriceLevel>, p: int, q: int) {
    p in m' && m' == m[p := m'[p]] && m'[p].total == (if p in m then m[p].total else 0) + q
  }

  /** The total at `p` went down by `q`; a level with nothing left was erased. */
  ghost predicate TotalLowered(m: map<int, PriceLevel>, m': map<int, PriceLevel>, p: int, q: int) {
    && p in m
    && if m[p].total - q <= 0 then m' == m - {p}
       else p in m' && m' == m[p := m'[p]] && m'[p].total == m[p].total - q
  }

  ghost function TradedIn(q: Queues): map<int, int> { map p | p in q :: q[p].traded }

  lemma MirroredKeys(s: seq<Order>, keys: seq<Key>, v: seq<Ord>)
    requires KeysOf(s, keys) && Mirrors(s, v)
    ensures OrdKeys(v) == keys
  {
  }

  lemma WithOrderIs(buy: bool, v: seq<Ord>, keys: seq<Key>, m: map<int, PriceLevel>, m': map<int, PriceLevel>,
                    q: Queues, order: Order, o: Ord)
    requires OrdKeys(v) == keys && TotalRaised(m, m', o.price, o.remaining) && m.Keys == q.Keys
      && order.price == o.price
    ensures Market.Half(InsertAt(v, Position(buy, keys, Key(o.price, o.timestamp)), o), TotalsOf(m'),
      TradedIn(Enqueued(q, order)))
         == Market.WithOrder(buy, Market.Half(v, TotalsOf(m), TradedIn(q)), o)
  {
    assert TotalsOf(m') == Market.AddTo(TotalsOf(m), o.price, o.remaining);
  }

  lemma WithoutOrderIs(v: seq<Ord>, m: map<int, PriceLevel>, m': map<int, PriceLevel>, q: Queues, i: nat, p: int,
      j: nat)
    requires i < |v| && v[i].price == p && TotalLowered(m, m', p, v[i].remaining)
    requires p in q && j < |q[p].orders| && m'.Keys == Dequeued(q, p, j).Keys
    ensures Market.Half(Without(v, i), TotalsOf(m'), TradedIn(Dequeued(q, p, j)))
         == Market.WithoutOrder(Market.Half(v, TotalsOf(m), TradedIn(q)), i)
  {
    assert TotalsOf(m') == Market.TakeFrom(TotalsOf(m), p, v[i].remaining);
  }

  lemma WithTradeIs(v: seq<Ord>, m: map<int, PriceLevel>, q: Queues, i: nat, p: int, quantity: int)
    requires i < |v| && v[i].price == p && p in q
    ensures Market.Half(v[i := Matching.Traded(v[i], quantity)], TotalsOf(m), TradedIn(AfterTrade(q, p, quantity)))
         == Market.WithTrade(Market.Half(v, TotalsOf(m), TradedIn(q)), i, quantity)
  {
  }

  lemma WithQuantityIs(v: seq<Ord>, m: map<int, PriceLevel>, m': map<int, PriceLevel>, q: Queues, i: nat, p: int,
                       quantity: int)
    requires i < |v| && v[i].price == p && p in m && m' == m[p := Requantified(m[p], v[i].remaining, quantity)]
    ensures Market.Half(v[i := v[i].(remaining := quantity)], TotalsOf(m'), TradedIn(q))
         == Market.WithQuantity(Market.Half(v, TotalsOf(m), TradedIn(q)), i, quantity)
  {
    assert TotalsOf(m') == TotalsOf(m)[p := m'[p].total];
  }

  /** A level in which an order's remaining quantity goes from `before` to `after`. */
  function Requantified(level: PriceLevel, before: int, after: int): PriceLevel {
    var total := level.total - before + after;
    level.(total := if total < 0 then 0 else total)
  }

  /** More was traded at `p`. */
  ghost function AfterTrade(q: Queues, p: int, quantity: int): Queues
    requires p in q
  {
    q[p := q[p].(traded := q[p].traded + quantity)]
  }

  lemma SameLists(q: Queues, p: int, quantity: int, walk: seq<Order>)
    requires p in q
    ensures ListsFollow(AfterTrade(q, p, quantity), walk) <==> ListsFollow(q, walk)
  {
    var q' := AfterTrade(q, p, quantity);
    assert forall p' :: p' in q ==> q'[p'].orders == q[p'].orders;
  }
}
