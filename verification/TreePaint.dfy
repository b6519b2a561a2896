/** Recolouring on links, and what the links show about an order's close relatives. */
module TreePaint {
  import opened Orders
  import opened Priority
  import opened TreeShape
  import opened TreeRotation

  ghost predicate IsRed(t: Tree) { t.Node? && t.red }
  ghost predicate CtxRed(c: Ctx) { !c.Top? && c.red }

  ghost predicate CtxRootBlack(c: Ctx) {
    c.Top? || if c.up.Top? then !c.red else CtxRootBlack(c.up)
  }

  lemma {:induction false} PlugRootBlack(c: Ctx, t: Tree)
    ensures !c.Top? ==> (IsRed(Plug(c, t)) <==> !CtxRootBlack(c))
    decreases c
  {
    if !c.Top? {
      PlugRootBlack(c.up, if c.InL? then Node(t, c.item, c.red, c.right) else Node(c.left, c.item, c.red, t));
    }
  }

  ghost function Uncle(c: Ctx): Tree
    requires !c.Top? && !c.up.Top?
  {
    if c.up.InL? then c.up.right else c.up.left
  }

  /** The parent's subtree, with the parent painted black. */
  ghost function BlackParent(c: Ctx, t: Tree): Tree
    requires !c.Top?
  {
    if c.InL? then Node(t, c.item, false, c.right) else Node(c.left, c.item, false, t)
  }

  ghost function Painted(t: Tree, red: bool): Tree {
    if t.Leaf? then t else t.(red := red)
  }

  /** The grandparent's subtree after its colour has been pushed up. */
  ghost function PushedUp(c: Ctx, t: Tree): Tree
    requires !c.Top? && !c.up.Top?
  {
    var g := c.up;
    if g.InL? then Node(BlackParent(c, t), g.item, true, Painted(g.right, false))
    else Node(Painted(g.left, false), g.item, true, BlackParent(c, t))
  }

  lemma PushUpWalk(c: Ctx, t: Tree)
    requires !c.Top? && !c.up.Top?
    ensures InOrder(Plug(c.up.up, PushedUp(c, t))) == InOrder(Plug(c, t))
  {
    var red := Node(if c.InL? then t else c.left, c.item, c.red, if c.InL? then c.right else t);
    assert InOrder(BlackParent(c, t)) == InOrder(red);
    assert InOrder(Painted(Uncle(c), false)) == InOrder(Uncle(c));
    var g := if c.up.InL? then Node(red, c.up.item, c.up.red, c.up.right)
      else Node(c.up.left, c.up.item, c.up.red, red);
    assert InOrder(PushedUp(c, t)) == InOrder(g);
    PlugWalk(c.up.up, PushedUp(c, t));
    PlugWalk(c.up.up, g);
  }

  /** A subtree together with the hole's parent, in a given colour. */
  ghost function Up(c: Ctx, t: Tree, red: bool): Tree
    requires !c.Top?
  {
    if c.InL? then Node(t, c.item, red, c.right) else Node(c.left, c.item, red, t)
  }

  ghost function Beside(c: Ctx): Tree
    requires !c.Top?
  {
    if c.InL? then c.right else c.left
  }

  /** The context of the hole's sibling. */
  ghost function BesideCtx(c: Ctx, t: Tree, red: bool): Ctx
    requires !c.Top?
  {
    if c.InL? then InR(t, c.item, red, c.up) else InL(c.up, c.item, red, t)
  }

  lemma PaintLinks(h: Links, h': Links, nil: Order, root: Order?, c: Ctx, t: Tree, red: bool)
    requires Coherent(h, nil, root, Plug(c, t)) && t.Node? && t.item in h
    requires h' == h[t.item := h[t.item].(red := red)]
    ensures Coherent(h', nil, root, Plug(c, Painted(t, red)))
  {
    Focus(h, nil, root, c, t);
    PlugRep(h, nil, root, c, t);
    PlugDistinct(c, t);
    RepFrame(h, h', nil, h[t.item].left, t.item, t.left);
    RepFrame(h, h', nil, h[t.item].right, t.item, t.right);
    ReplaceSubtree(h, h', nil, root, root, c, t, Painted(t, red));
  }

  /** The zipper one step further up, or over to the sibling. */
  lemma UpPlug(c: Ctx, t: Tree)
    requires !c.Top?
    ensures Plug(c.up, Up(c, t, c.red)) == Plug(c, t) == Plug(BesideCtx(c, t, c.red), Beside(c))
  {
  }

  /** How the order `t.item` reaches its parent and grandparent. */
  lemma Kin(h: Links, nil: Order, root: Order?, c: Ctx, t: Tree)
    requires Coherent(h, nil, root, Plug(c, t)) && t.Node? && !c.Top?
    ensures {t.item, c.item} <= h.Keys && t.item != c.item
    ensures h[t.item].parent == c.item && h[c.item].parent == Parent(c.up)
    ensures h[t.item].red == t.red && h[c.item].red == c.red
    ensures (c.InL? <==> h[c.item].left == t.item) && (c.InR? <==> h[c.item].right == t.item)
    ensures !c.up.Top? ==>
      && c.up.item in h && c.up.item !in {t.item, c.item}
      && (c.up.InL? <==> h[c.up.item].left == c.item) && (c.up.InR? <==> h[c.up.item].right == c.item)
  {
    Focus(h, nil, root, c, t);
    var p := Up(c, t, c.red);
    UpPlug(c, t);
    Focus(h, nil, root, c.up, p);
  }

  lemma ParentColour(h: Links, nil: Order, root: Order?, c: Ctx, t: Tree)
    requires Coherent(h, nil, root, Plug(c, t)) && t.Node?
    ensures t.item in h && h[t.item].parent == Parent(c)
    ensures !c.Top? ==> c.item in h && h[c.item].red == c.red
  {
    Focus(h, nil, root, c, t);
    if !c.Top? { Kin(h, nil, root, c, t); }
  }

  /** How it reaches its uncle. */
  lemma UncleLink(h: Links, nil: Order, root: Order?, c: Ctx, t: Tree)
    requires Coherent(h, nil, root, Plug(c, t)) && t.Node? && !c.Top? && !c.up.Top? && c.up.item in h
    ensures (if c.up.InL? then h[c.up.item].right else h[c.up.item].left) == Root(nil, Uncle(c))
    ensures Uncle(c).Node? ==>
      && Uncle(c).item in h && h[Uncle(c).item].red == Uncle(c).red
      && Uncle(c).item !in {t.item, c.item, c.up.item, nil}
  {
    var p := Up(c, t, c.red);
    UpPlug(c, t);
    UpPlug(c.up, p);
    Focus(h, nil, root, c.up.up, Up(c.up, p, c.up.red));
    if Uncle(c).Node? {
      Focus(h, nil, root, BesideCtx(c.up, p, c.up.red), Uncle(c));
      PlugDistinct(c.up, p);
      PlugElems(c.up, p);
    }
  }

  /** Parent black, grandparent red. */
  lemma PaintPairLinks(h: Links, h': Links, nil: Order, root: Order?, c: Ctx, t: Tree)
    requires Coherent(h, nil, root, Plug(c, t)) && t.Node? && !c.Top? && !c.up.Top?
    requires c.item in h && c.up.item in h && c.item != c.up.item
    requires h' == h[c.item := h[c.item].(red := false)][c.up.item := h[c.up.item].(red := true)]
    ensures Coherent(h', nil, root, Plug(c.up.up, Up(c.up, BlackParent(c, t), true)))
  {
    var h1 := h[c.item := h[c.item].(red := false)];
    PaintLinks(h, h1, nil, root, c.up, Up(c, t, c.red), false);
    PaintLinks(h1, h', nil, root, c.up.up, Up(c.up, BlackParent(c, t), c.up.red), true);
  }

  /** Parent and uncle black, grandparent red. */
  lemma PushUpLinks(h: Links, h': Links, nil: Order, root: Order?, c: Ctx, t: Tree)
    requires Coherent(h, nil, root, Plug(c, t)) && t.Node? && !c.Top? && !c.up.Top? && Uncle(c).Node?
    requires c.item in h && c.up.item in h && Uncle(c).item in h
    requires c.item != c.up.item && Uncle(c).item !in {c.item, c.up.item}
    requires h' == h[c.item := h[c.item].(red := false)]
                    [Uncle(c).item := h[Uncle(c).item].(red := false)]
                    [c.up.item := h[c.up.item].(red := true)]
    ensures Coherent(h', nil, root, Plug(c.up.up, PushedUp(c, t)))
  {
    var u, p, p' := Uncle(c), Up(c, t, c.red), BlackParent(c, t);
    var h1 := h[c.item := h[c.item].(red := false)];
    var h2 := h1[u.item := h1[u.item].(red := false)];
    PaintLinks(h, h1, nil, root, c.up, p, false);
    PaintLinks(h1, h2, nil, root, BesideCtx(c.up, p', c.up.red), u, false);
    var g := Up(c.up, p', c.up.red);
    var g' := if c.up.InL? then g.(right := Painted(u, false)) else g.(left := Painted(u, false));
    PaintLinks(h2, h', nil, root, c.up.up, g', true);
  }

  /** A new red leaf in a free place. */
  lemma AttachLinks(h: Links, h': Links, nil: Order, root: Order?, root': Order?, c: Ctx, order: Order)
    requires Coherent(h, nil, root, Plug(c, Leaf)) && order !in h && order != nil
    requires h'.Keys == h.Keys + {order} && h'[order] == Cell(nil, nil, Parent(c), true)
    requires forall n :: n in h && n != Parent(c) ==> h'[n] == h[n]
    requires c.InL? ==> c.item in h && h'[c.item] == h[c.item].(left := order)
    requires c.InR? ==> c.item in h && h'[c.item] == h[c.item].(right := order)
    requires root' == if c.Top? then order else root
    ensures Coherent(h', nil, root', Plug(c, Node(Leaf, order, true, Leaf)))
  {
    var t := Node(Leaf, order, true, Leaf);
    PlugElems(c, Leaf); PlugElems(c, t);
    PlugDistinct(c, Leaf); PlugDistinct(c, t);
    PlugRep(h, nil, root, c, Leaf); PlugRep(h', nil, root', c, t);
    CtxReplace(h, h', nil, root, root', c, nil, order);
  }

  lemma InsertWalk(c: Ctx, order: Order)
    ensures |Before(c)| <= |InOrder(Plug(c, Leaf))|
    ensures InOrder(Plug(c, Node(Leaf, order, true, Leaf))) == InsertAt(InOrder(Plug(c, Leaf)), |Before(c)|, order)
  {
    PlugWalk(c, Leaf);
    PlugWalk(c, Node(Leaf, order, true, Leaf));
  }

  /** The sibling of `t.item`, its colour and the colours of its children, as the links show them. */
  lemma Sibling(h: Links, nil: Order, root: Order?, c: Ctx, t: Tree)
    requires Coherent(h, nil, root, Plug(c, t)) && t.Node? && !c.Top?
    ensures t.item in h && h[t.item].parent == c.item && c.item in h
    ensures (if c.InL? then h[c.item].right else h[c.item].left) == Root(nil, Beside(c)) && h[c.item].red == c.red
    ensures Beside(c).Node? ==>
      var w := Beside(c);
      && w.item in h && w.item != nil && h[w.item].red == w.red
      && h[w.item].left == Root(nil, w.left) && h[w.item].right == Root(nil, w.right)
      && (w.left.Node? ==> w.left.item in h && w.left.item != nil && h[w.left.item].red == w.left.red)
      && (w.right.Node? ==> w.right.item in h && w.right.item != nil && h[w.right.item].red == w.right.red)
  {
    Kin(h, nil, root, c, t);
    UpPlug(c, t);
    Focus(h, nil, root, c.up, Up(c, t, c.red));
    var w, d := Beside(c), BesideCtx(c, t, c.red);
    if w.Node? {
      Focus(h, nil, root, d, w);
      if w.left.Node? { Focus(h, nil, root, InL(d, w.item, w.red, w.right), w.left); }
      if w.right.Node? { Focus(h, nil, root, InR(w.left, w.item, w.red, d), w.right); }
    }
  }

  /** The root of the whole tree is black. */
  ghost predicate RootBlack(c: Ctx, t: Tree) { if c.Top? then !IsRed(t) else CtxRootBlack(c) }

  /** Recolouring three orders and rotating the parent leaves the walk alone. */
  lemma RaisedLeftWalk(c: Ctx, t: Tree)
    requires c.InL? && c.right.Node?
    ensures InOrder(Plug(c.up, RaisedLeft(c, t))) == InOrder(Plug(c, t))
  {
    var w1 := c.right.(red := c.red, right := Painted(c.right.right, false));
    var p, p0 := Node(t, c.item, false, w1), Up(c, t, c.red);
    assert InOrder(w1.right) == InOrder(c.right.right);
    assert InOrder(w1) == InOrder(c.right);
    assert InOrder(p) == InOrder(p0);
    RotatedLeftSame(p);
    PlugWalk(c.up, p0);
    PlugWalk(c.up, RotatedLeft(p));
  }

  lemma RaisedRightWalk(c: Ctx, t: Tree)
    requires c.InR? && c.left.Node?
    ensures InOrder(Plug(c.up, RaisedRight(c, t))) == InOrder(Plug(c, t))
  {
    var w1 := c.left.(red := c.red, left := Painted(c.left.left, false));
    var p, p0 := Node(w1, c.item, false, t), Up(c, t, c.red);
    assert InOrder(w1.left) == InOrder(c.left.left);
    assert InOrder(w1) == InOrder(c.left);
    assert InOrder(p) == InOrder(p0);
    RotatedRightSame(p);
    PlugWalk(c.up, p0);
    PlugWalk(c.up, RotatedRight(p));
  }

  // ---- The removal fix-up, one step at a time ------------------------------------------------

  /** The place of `t` after its red sibling went above the parent. */
  ghost function LoweredLeft(c: Ctx): Ctx
    requires c.InL? && c.right.Node?
  {
    InL(InL(c.up, c.right.item, false, c.right.right), c.item, true, c.right.left)
  }

  ghost function LoweredRight(c: Ctx): Ctx
    requires c.InR? && c.left.Node?
  {
    InR(c.left.right, c.item, true, InR(c.left.left, c.left.item, false, c.up))
  }

  /** The parent's subtree after the black sibling turned red. */
  ghost function Evened(c: Ctx, t: Tree): Tree
    requires !c.Top?
  {
    if c.InL? then Node(t, c.item, c.red, Painted(c.right, true)) else Node(Painted(c.left, true), c.item, c.red, t)
  }

  /** The sibling after its red inner child rose above it. */
  ghost function TurnedOutRight(w: Tree): Tree
    requires w.Node? && w.left.Node?
  {
    RotatedRight(Node(Painted(w.left, false), w.item, true, w.right))
  }

  ghost function TurnedOutLeft(w: Tree): Tree
    requires w.Node? && w.right.Node?
  {
    RotatedLeft(Node(w.left, w.item, true, Painted(w.right, false)))
  }

  /** The parent's subtree after the black sibling took the parent's place and colour. */
  ghost function RaisedLeft(c: Ctx, t: Tree): Tree
    requires c.InL? && c.right.Node?
  {
    RotatedLeft(Node(t, c.item, false, c.right.(red := c.red, right := Painted(c.right.right, false))))
  }

  ghost function RaisedRight(c: Ctx, t: Tree): Tree
    requires c.InR? && c.left.Node?
  {
    RotatedRight(Node(c.left.(red := c.red, left := Painted(c.left.left, false)), c.item, false, t))
  }

  /** Painting the root of a plugged subtree black. */
  lemma PaintedWalk(c: Ctx, t: Tree)
    requires t.Node? && CtxRootBlack(c)
    ensures InOrder(Plug(c, Painted(t, false))) == InOrder(Plug(c, t)) && !IsRed(Plug(c, Painted(t, false)))
  {
    assert InOrder(Painted(t, false)) == InOrder(t);
    PlugWalk(c, t);
    PlugWalk(c, Painted(t, false));
    PlugRootBlack(c, Painted(t, false));
  }
}
