/** Taking an order out of a linked tree: splicing out an order with one child, and letting the
    successor take the place of an order with two. */
module TreeRemoval {
  import opened Orders
  import opened PriceLevels
  import opened TreeShape

  /** The hole's parent, if any, now points at `top`; every other order of the context kept its links. */
  ghost predicate HoleRelinked(h: Links, h': Links, root: Order?, root': Order?, c: Ctx, top: Order) {
    && CtxElems(c) <= h.Keys && CtxElems(c) <= h'.Keys
    && (forall n :: n in CtxElems(c) && n != Parent(c) ==> h'[n] == h[n])
    && (c.InL? ==> c.item in h && c.item in h' && h'[c.item] == h[c.item].(left := top))
    && (c.InR? ==> c.item in h && c.item in h' && h'[c.item] == h[c.item].(right := top))
    && root' == if c.Top? then top else root
  }

  /** A coherent tree in which one subtree is swapped for another, possibly over other orders. */
  lemma SwapSubtree(h: Links, h': Links, nil: Order, root: Order?, root': Order?, c: Ctx, t: Tree, t': Tree)
    requires Coherent(h, nil, root, Plug(c, t))
    requires Distinct(t') && CtxElems(c) !! Elems(t') && nil !in Elems(t')
    requires h'.Keys == CtxElems(c) + Elems(t')
    requires HoleRelinked(h, h', root, root', c, Root(nil, t'))
    requires Rep(h', nil, Root(nil, t'), Parent(c), t')
    ensures Coherent(h', nil, root', Plug(c, t'))
  {
    PlugElems(c, t); PlugElems(c, t');
    PlugDistinct(c, t); PlugDistinct(c, t');
    PlugRep(h, nil, root, c, t); PlugRep(h', nil, root', c, t');
    CtxReplace(h, h', nil, root, root', c, Root(nil, t), Root(nil, t'));
  }

  /** The only child of an order, if it has at most one. */
  ghost predicate Spliceable(t: Tree) { t.Node? && (t.left.Leaf? || t.right.Leaf?) }

  ghost function OnlyChild(t: Tree): Tree
    requires Spliceable(t)
  {
    if t.left.Leaf? then t.right else t.left
  }

  /** `z`'s parent `p`, or the root pointer, adopted `top` in its stead. */
  ghost predicate Adopted(h: Links, h': Links, root: Order?, root': Order?, z: Order, top: Order)
    requires z in h
  {
    var p := h[z].parent;
    && (p != null ==> p in h && p in h' && h'[p] == if h[p].left == z then h[p].(left := top) else h[p].(right := top))
    && root' == if p == null then top else root
  }

  /** `z` is gone and its child `s` hangs in its place. */
  ghost predicate Spliced(h: Links, h': Links, nil: Order, root: Order?, root': Order?, z: Order, s: Order) {
    && z in h && h'.Keys == h.Keys - {z} && Adopted(h, h', root, root', z, s)
    && (s != nil ==> s in h && s in h' && h'[s] == h[s].(parent := h[z].parent))
    && forall n :: n in h' && n != s && n != h[z].parent ==> h'[n] == h[n]
  }

  /** `z` is gone and `y` has all its links. */
  ghost predicate Substituted(h: Links, h': Links, nil: Order, root: Order?, root': Order?, z: Order, y: Order) {
    && z in h && h'.Keys == h.Keys - {z} + {y} && Adopted(h, h', root, root', z, y)
    && h'[y] == h[z]
    && (forall n :: n in h && n != z && n != h[z].parent ==>
          h'[n] == if n == h[z].left || n == h[z].right then h[n].(parent := y) else h[n])
  }

  lemma AdoptedRelinked(h: Links, h': Links, nil: Order, root: Order?, root': Order?, c: Ctx, t: Tree, top: Order)
    requires Coherent(h, nil, root, Plug(c, t)) && t.Node? && t.item in h && CtxElems(c) <= h'.Keys
    requires Adopted(h, h', root, root', t.item, top)
    requires forall n :: n in CtxElems(c) && n != Parent(c) ==> n in h && h'[n] == h[n]
    ensures HoleRelinked(h, h', root, root', c, top)
  {
    Focus(h, nil, root, c, t);
    PlugElems(c, t);
  }

  /** An order with at most one child is replaced by that child. */
  lemma SpliceLinks(h: Links, h': Links, nil: Order, root: Order?, root': Order?, c: Ctx, t: Tree)
    requires Coherent(h, nil, root, Plug(c, t)) && Spliceable(t)
    requires Spliced(h, h', nil, root, root', t.item, Root(nil, OnlyChild(t)))
    ensures Coherent(h', nil, root', Plug(c, OnlyChild(t)))
  {
    var s := OnlyChild(t);
    Focus(h, nil, root, c, t);
    PlugElems(c, t); PlugDistinct(c, t); PlugRep(h, nil, root, c, t);
    AdoptedRelinked(h, h', nil, root, root', c, t, Root(nil, s));
    RepRoot(h, nil, t.item, Parent(c), t);
    RepReparent(h, h', nil, t.item, Parent(c), s);
    SwapSubtree(h, h', nil, root, root', c, t, s);
  }

  /** The newcomer `y` takes over all the links of `t.item`. */
  lemma SubstituteLinks(h: Links, h': Links, nil: Order, root: Order?, root': Order?, c: Ctx, t: Tree, y: Order)
    requires Coherent(h, nil, root, Plug(c, t)) && t.Node? && y !in h && y != nil
    requires Substituted(h, h', nil, root, root', t.item, y)
    ensures Coherent(h', nil, root', Plug(c, t.(item := y)))
  {
    Focus(h, nil, root, c, t);
    PlugElems(c, t); PlugDistinct(c, t); PlugRep(h, nil, root, c, t);
    ChildrenElsewhere(h, nil, root, c, t);
    AdoptedRelinked(h, h', nil, root, root', c, t, y);
    RepRoot(h, nil, t.item, Parent(c), t);
    RepReparent(h, h', nil, t.item, y, t.left);
    RepReparent(h, h', nil, t.item, y, t.right);
    SwapSubtree(h, h', nil, root, root', c, t, t.(item := y));
  }

  lemma ChildrenElsewhere(h: Links, nil: Order, root: Order?, c: Ctx, t: Tree)
    requires Coherent(h, nil, root, Plug(c, t)) && t.Node?
    ensures Root(nil, t.left) !in CtxElems(c) + Elems(t.right) && Root(nil, t.right) !in CtxElems(c) + Elems(t.left)
  {
    PlugElems(c, t); PlugDistinct(c, t);
  }

  // ---- The successor ----------------------------------------------------------------------

  ghost predicate LeftSpine(d: Ctx) { d.Top? || (d.InL? && LeftSpine(d.up)) }

  ghost function Compose(c: Ctx, d: Ctx): Ctx
    decreases d
  {
    match d
    case Top => c
    case InL(up, n, red, r) => InL(Compose(c, up), n, red, r)
    case InR(l, n, red, up) => InR(l, n, red, Compose(c, up))
  }

  lemma {:induction false} PlugCompose(c: Ctx, d: Ctx, t: Tree)
    ensures Plug(Compose(c, d), t) == Plug(c, Plug(d, t))
    decreases d
  {
    match d
    case Top =>
    case InL(up, n, red, r) => PlugCompose(c, up, Node(t, n, red, r));
    case InR(l, n, red, up) => PlugCompose(c, up, Node(l, n, red, t));
  }

  lemma {:induction false} SpineWalk(d: Ctx)
    requires LeftSpine(d)
    ensures Before(d) == []
    decreases d
  {
    if d.InL? { SpineWalk(d.up); }
  }

  /** The right context of `t.item`, and in it the place of its successor. */
  ghost function RightOf(c: Ctx, t: Tree): Ctx
    requires t.Node?
  {
    InR(t.left, t.item, t.red, c)
  }

  /** The tree after `t.item` is gone and `m.item`, the first of its right subtree, stands in its place. */
  ghost function Succeeded(t: Tree, d: Ctx, m: Tree): Tree
    requires t.Node? && m.Node?
  {
    Node(t.left, m.item, t.red, Plug(d, m.right))
  }

  lemma SpineFirst(d: Ctx, m: Tree)
    requires m.Node? && m.left.Leaf? && LeftSpine(d)
    ensures InOrder(Plug(d, m)) == [m.item] + InOrder(Plug(d, m.right))
  {
    SpineWalk(d);
    PlugWalk(d, m);
    PlugWalk(d, m.right);
    assert InOrder(m) == [m.item] + InOrder(m.right);
    Regroup([m.item], InOrder(m.right), After(d), []);
  }

  lemma SucceededWalk(c: Ctx, t: Tree, d: Ctx, m: Tree)
    requires t.Node? && m.Node? && m.left.Leaf? && LeftSpine(d) && t.right == Plug(d, m)
    ensures InOrder(Plug(c, t)) == (Before(c) + InOrder(t.left)) + [t.item] + (InOrder(t.right) + After(c))
    ensures InOrder(Plug(c, Succeeded(t, d, m))) == (Before(c) + InOrder(t.left)) + (InOrder(t.right) + After(c))
  {
    PlugWalkNode(c, t);
    PlugWalkNode(c, Succeeded(t, d, m));
    SpineFirst(d, m);
    Move(Before(c) + InOrder(t.left), m.item, InOrder(Plug(d, m.right)), After(c));
  }

  lemma Move(b: seq<Order>, y: Order, r: seq<Order>, a: seq<Order>)
    ensures b + [y] + (r + a) == b + (([y] + r) + a)
  {
  }

  lemma SplicedWalk(c: Ctx, t: Tree)
    requires Spliceable(t)
    ensures InOrder(Plug(c, t)) == (Before(c) + InOrder(t.left)) + [t.item] + (InOrder(t.right) + After(c))
    ensures InOrder(Plug(c, OnlyChild(t))) == (Before(c) + InOrder(t.left)) + (InOrder(t.right) + After(c))
  {
    PlugWalkNode(c, t);
    PlugWalk(c, OnlyChild(t));
  }

  lemma ComposeTop(c: Ctx, d: Ctx)
    requires !c.Top?
    ensures !Compose(c, d).Top?
  {
  }

  // ---- Finding an order's spot ---------------------------------------------------------------

  lemma {:induction false} SpotOf(c0: Ctx, t0: Tree, n: Order) returns (c: Ctx, t: Tree)
    requires n in Elems(t0)
    ensures Plug(c, t) == Plug(c0, t0) && t.Node? && t.item == n
    decreases t0
  {
    Down(c0, t0);
    if t0.item == n {
      c, t := c0, t0;
    } else if n in Elems(t0.left) {
      c, t := SpotOf(InL(c0, t0.item, t0.red, t0.right), t0.left, n);
    } else {
      c, t := SpotOf(InR(t0.left, t0.item, t0.red, c0), t0.right, n);
    }
  }

  /** The rank of `t.item` in the walk. */
  ghost function RankOf(c: Ctx, t: Tree): nat
    requires t.Node?
  {
    |Before(c)| + |InOrder(t.left)|
  }

  lemma RankWalk(c: Ctx, t: Tree)
    requires t.Node?
    ensures RankOf(c, t) < |InOrder(Plug(c, t))| && InOrder(Plug(c, t))[RankOf(c, t)] == t.item
    ensures Without(InOrder(Plug(c, t)), RankOf(c, t))
         == (Before(c) + InOrder(t.left)) + (InOrder(t.right) + After(c))
  {
    PlugWalkNode(c, t);
    WithoutMiddle(Before(c) + InOrder(t.left), t.item, InOrder(t.right) + After(c));
  }

  lemma WithoutMiddle(a: seq<Order>, x: Order, b: seq<Order>)
    ensures Without(a + [x] + b, |a|) == a + b
  {
  }
}
