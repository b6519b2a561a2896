/** The two rotations, on shapes and on links. */
module TreeRotation {
  import opened Orders
  import opened TreeShape

  ghost predicate CanRotateLeft(t: Tree) { t.Node? && t.right.Node? }
  ghost predicate CanRotateRight(t: Tree) { t.Node? && t.left.Node? }

  ghost function RotatedLeft(t: Tree): Tree
    requires CanRotateLeft(t)
  {
    Node(Node(t.left, t.item, t.red, t.right.left), t.right.item, t.right.red, t.right.right)
  }

  ghost function RotatedRight(t: Tree): Tree
    requires CanRotateRight(t)
  {
    Node(t.left.left, t.left.item, t.left.red, Node(t.left.right, t.item, t.red, t.right))
  }

  lemma RotatedLeftSame(t: Tree)
    requires CanRotateLeft(t)
    ensures InOrder(RotatedLeft(t)) == InOrder(t) && Elems(RotatedLeft(t)) == Elems(t)
    ensures Distinct(t) ==> Distinct(RotatedLeft(t))
  {
    var Node(a, x, rx, Node(b, y, ry, d)) := t;
    var low, up := Node(a, x, rx, b), t.right;
    assert InOrder(a) + [x] + (InOrder(b) + [y] + InOrder(d)) == (InOrder(a) + [x] + InOrder(b)) + [y] + InOrder(d);
    assert Elems(up) == Elems(b) + {y} + Elems(d) && Elems(low) == Elems(a) + {x} + Elems(b);
    if Distinct(t) {
      assert Distinct(up) && Distinct(low);
    }
  }

  lemma RotatedRightSame(t: Tree)
    requires CanRotateRight(t)
    ensures InOrder(RotatedRight(t)) == InOrder(t) && Elems(RotatedRight(t)) == Elems(t)
    ensures Distinct(t) ==> Distinct(RotatedRight(t))
  {
    var Node(Node(a, y, ry, b), x, rx, d) := t;
    var low, up := Node(b, x, rx, d), t.left;
    assert (InOrder(a) + [y] + InOrder(b)) + [x] + InOrder(d) == InOrder(a) + [y] + (InOrder(b) + [x] + InOrder(d));
    assert Elems(up) == Elems(a) + {y} + Elems(b) && Elems(low) == Elems(b) + {x} + Elems(d);
    if Distinct(t) {
      assert Distinct(up) && Distinct(low);
    }
  }

  /** Outside the hole's parent and `touched`, nothing moved, and the hole's parent points at `top`. */
  ghost predicate Relinked(h: Links, h': Links, root: Order?, root': Order?, c: Ctx, top: Order, touched: set<Order>) {
    && h'.Keys == h.Keys
    && (forall n :: n in h && n !in touched && n != Parent(c) ==> h'[n] == h[n])
    && (c.InL? ==> c.item in h && h'[c.item] == h[c.item].(left := top))
    && (c.InR? ==> c.item in h && h'[c.item] == h[c.item].(right := top))
    && root' == (if c.Top? then top else root)
  }

  /** A coherent tree whose plugged subtree is swapped for a coherent one over the same orders. */
  lemma ReplaceSubtree(h: Links, h': Links, nil: Order, root: Order?, root': Order?,
                       c: Ctx, t: Tree, t': Tree)
    requires Coherent(h, nil, root, Plug(c, t))
    requires Elems(t') == Elems(t) && Distinct(t')
    requires t'.Node? && Relinked(h, h', root, root', c, t'.item, Elems(t))
    requires Rep(h', nil, t'.item, Parent(c), t')
    ensures Coherent(h', nil, root', Plug(c, t'))
  {
    PlugElems(c, t); PlugElems(c, t');
    PlugDistinct(c, t); PlugDistinct(c, t');
    PlugRep(h, nil, root, c, t); PlugRep(h', nil, root', c, t');
    CtxReplace(h, h', nil, root, root', c, Root(nil, t), t'.item);
  }

  /** `x`, its child `y`, the subtree `b` between them and the parent are where a rotation expects them. */
  ghost predicate Turnable(h: Links, nil: Order, x: Order, y: Order?, b: Order?) {
    && nil !in h && x in h && y != null && y in h && x != y
    && b != null && (b == nil || (b in h && b != x && b != y))
    && (h[x].parent != null ==>
      h[x].parent in h && h[x].parent !in {x, y, b}
      && (h[h[x].parent].left == x <==> h[h[x].parent].right != x))
  }

  ghost predicate TurnableLeft(h: Links, nil: Order, x: Order) {
    x in h && h[x].right != null && h[x].right in h && Turnable(h, nil, x, h[x].right, h[h[x].right].left)
  }

  ghost predicate TurnableRight(h: Links, nil: Order, x: Order) {
    x in h && h[x].left != null && h[x].left in h && Turnable(h, nil, x, h[x].left, h[h[x].left].right)
  }

  /** `y` took the place of `x` below `x`'s parent; the orders of `rest` kept all their links. */
  ghost predicate Promoted(h: Links, h': Links, root: Order?, root': Order?, x: Order, y: Order, b: Order)
    requires x in h
  {
    var p := h[x].parent;
    && h'.Keys == h.Keys
    && (p != null ==> p in h && h'[p] == if h[p].left == x then h[p].(left := y) else h[p].(right := y))
    && root' == (if p == null then y else root)
    && (forall n :: n in h && n != x && n != y && n != b && n != p ==> h'[n] == h[n])
  }

  ghost predicate TurnedLeft(h: Links, h': Links, nil: Order, root: Order?, root': Order?, x: Order)
    requires TurnableLeft(h, nil, x)
  {
    var y, p := h[x].right, h[x].parent;
    var b := h[y].left;
    && Promoted(h, h', root, root', x, y, b)
    && h'[x] == h[x].(right := b, parent := y)
    && h'[y] == h[y].(left := x, parent := p)
    && (b != nil ==> h'[b] == h[b].(parent := x))
  }

  ghost predicate TurnedRight(h: Links, h': Links, nil: Order, root: Order?, root': Order?, x: Order)
    requires TurnableRight(h, nil, x)
  {
    var y, p := h[x].left, h[x].parent;
    var b := h[y].right;
    && Promoted(h, h', root, root', x, y, b)
    && h'[x] == h[x].(left := b, parent := y)
    && h'[y] == h[y].(right := x, parent := p)
    && (b != nil ==> h'[b] == h[b].(parent := x))
  }

  lemma LeftTurnable(h: Links, nil: Order, root: Order?, c: Ctx, t: Tree)
    requires Coherent(h, nil, root, Plug(c, t)) && CanRotateLeft(t)
    ensures TurnableLeft(h, nil, t.item)
    ensures h[t.item].right == t.right.item && h[t.right.item].left == Root(nil, t.right.left)
  {
    Focus(h, nil, root, c, t);
    Focus(h, nil, root, InR(t.left, t.item, t.red, c), t.right);
  }

  lemma RightTurnable(h: Links, nil: Order, root: Order?, c: Ctx, t: Tree)
    requires Coherent(h, nil, root, Plug(c, t)) && CanRotateRight(t)
    ensures TurnableRight(h, nil, t.item)
    ensures h[t.item].left == t.left.item && h[t.left.item].right == Root(nil, t.left.right)
  {
    Focus(h, nil, root, c, t);
    Focus(h, nil, root, InL(c, t.item, t.red, t.right), t.left);
  }

  lemma PromotedRelinked(h: Links, h': Links, nil: Order, root: Order?, root': Order?, c: Ctx, t: Tree, y: Order,
      b: Order)
    requires Coherent(h, nil, root, Plug(c, t)) && t.Node?
    requires y in Elems(t) && (b == nil || b in Elems(t))
    requires t.item in h && h[t.item].parent == Parent(c)
    requires Promoted(h, h', root, root', t.item, y, b)
    ensures Relinked(h, h', root, root', c, y, {t.item, y, b})
    ensures Relinked(h, h', root, root', c, y, Elems(t))
  {
    Focus(h, nil, root, c, t);
  }

  /** What the assignments of a left rotation do to the links. */
  lemma RotateLeftLinks(h: Links, h': Links, nil: Order, root: Order?, root': Order?, c: Ctx, t: Tree)
    requires Coherent(h, nil, root, Plug(c, t)) && CanRotateLeft(t)
    requires TurnableLeft(h, nil, t.item) && TurnedLeft(h, h', nil, root, root', t.item)
    ensures Coherent(h', nil, root', Plug(c, RotatedLeft(t)))
  {
    RotatedLeftSame(t);
    LeftTurnable(h, nil, root, c, t);
    Focus(h, nil, root, c, t);
    Focus(h, nil, root, InR(t.left, t.item, t.red, c), t.right);
    PromotedRelinked(h, h', nil, root, root', c, t, t.right.item, Root(nil, t.right.left));
    PlugRep(h, nil, root, c, t);
    PlugDistinct(c, t);
    RotatedLeftRep(h, h', nil, Parent(c), t);
    ReplaceSubtree(h, h', nil, root, root', c, t, RotatedLeft(t));
  }

  lemma RotatedLeftRep(h: Links, h': Links, nil: Order, p: Order?, t: Tree)
    requires CanRotateLeft(t) && Distinct(t) && Rep(h, nil, t.item, p, t) && nil !in Elems(t)
    requires Elems(t) <= h.Keys && h.Keys == h'.Keys && t.item in h && t.right.item in h
    requires var x, y, b := t.item, t.right.item, t.right.left;
      && (forall n :: n in Elems(t) && n != x && n != y && n != Root(nil, b) ==> h'[n] == h[n])
      && h'[x] == h[x].(right := Root(nil, b), parent := y)
      && h'[y] == h[y].(left := x, parent := p)
      && (b.Node? ==> b.item in h && h'[b.item] == h[b.item].(parent := x))
    ensures Rep(h', nil, t.right.item, p, RotatedLeft(t))
  {
    var x, y, b := t.item, t.right.item, t.right.left;
    RepRoot(h, nil, x, p, t); RepRoot(h, nil, y, x, t.right);
    RepFrame(h, h', nil, h[x].left, x, t.left);
    RepFrame(h, h', nil, h[y].right, y, t.right.right);
    RepReparent(h, h', nil, y, x, b);
  }

  /** What the assignments of a right rotation do to the links. */
  lemma RotateRightLinks(h: Links, h': Links, nil: Order, root: Order?, root': Order?, c: Ctx, t: Tree)
    requires Coherent(h, nil, root, Plug(c, t)) && CanRotateRight(t)
    requires TurnableRight(h, nil, t.item) && TurnedRight(h, h', nil, root, root', t.item)
    ensures Coherent(h', nil, root', Plug(c, RotatedRight(t)))
  {
    RotatedRightSame(t);
    RightTurnable(h, nil, root, c, t);
    Focus(h, nil, root, c, t);
    Focus(h, nil, root, InL(c, t.item, t.red, t.right), t.left);
    PromotedRelinked(h, h', nil, root, root', c, t, t.left.item, Root(nil, t.left.right));
    PlugRep(h, nil, root, c, t);
    PlugDistinct(c, t);
    RotatedRightRep(h, h', nil, Parent(c), t);
    ReplaceSubtree(h, h', nil, root, root', c, t, RotatedRight(t));
  }

  lemma RotatedRightRep(h: Links, h': Links, nil: Order, p: Order?, t: Tree)
    requires CanRotateRight(t) && Distinct(t) && Rep(h, nil, t.item, p, t) && nil !in Elems(t)
    requires Elems(t) <= h.Keys && h.Keys == h'.Keys && t.item in h && t.left.item in h
    requires var x, y, b := t.item, t.left.item, t.left.right;
      && (forall n :: n in Elems(t) && n != x && n != y && n != Root(nil, b) ==> h'[n] == h[n])
      && h'[x] == h[x].(left := Root(nil, b), parent := y)
      && h'[y] == h[y].(right := x, parent := p)
      && (b.Node? ==> b.item in h && h'[b.item] == h[b.item].(parent := x))
    ensures Rep(h', nil, t.left.item, p, RotatedRight(t))
  {
    var x, y, b := t.item, t.left.item, t.left.right;
    RepRoot(h, nil, x, p, t); RepRoot(h, nil, y, x, t.left);
    RepFrame(h, h', nil, h[x].right, x, t.right);
    RepFrame(h, h', nil, h[y].left, y, t.left.left);
    RepReparent(h, h', nil, y, x, b);
  }
}
