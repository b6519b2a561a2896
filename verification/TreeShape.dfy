/** The mathematics of the linked tree: shapes, a zipper into them, and what it means for the
    links of a set of orders to represent a shape. */
module TreeShape {
  import opened Orders

  datatype Tree = Leaf | Node(left: Tree, item: Order, red: bool, right: Tree)

  /** A tree with a hole. The hole is the left (`InL`) or right (`InR`) child of `item`. */
  datatype Ctx =
    | Top
    | InL(up: Ctx, item: Order, red: bool, right: Tree)
    | InR(left: Tree, item: Order, red: bool, up: Ctx)

  /** The tree fields of one order, and a snapshot of them for all orders of a tree. */
  datatype Cell = Cell(left: Order?, right: Order?, parent: Order?, red: bool)
  type Links = map<Order, Cell>

  ghost function Elems(t: Tree): set<Order> {
    match t
    case Leaf => {}
    case Node(l, n, _, r) => Elems(l) + {n} + Elems(r)
  }

  ghost function CtxElems(c: Ctx): set<Order> {
    match c
    case Top => {}
    case InL(up, n, _, r) => CtxElems(up) + {n} + Elems(r)
    case InR(l, n, _, up) => Elems(l) + {n} + CtxElems(up)
  }

  ghost function InOrder(t: Tree): seq<Order> {
    match t
    case Leaf => []
    case Node(l, n, _, r) => InOrder(l) + [n] + InOrder(r)
  }

  /** What the walk of a plugged context visits before and after the hole. */
  ghost function Before(c: Ctx): seq<Order> {
    match c
    case Top => []
    case InL(up, _, _, _) => Before(up)
    case InR(l, n, _, up) => Before(up) + InOrder(l) + [n]
  }

  ghost function After(c: Ctx): seq<Order> {
    match c
    case Top => []
    case InL(up, n, _, r) => [n] + InOrder(r) + After(up)
    case InR(_, _, _, up) => After(up)
  }

  ghost function Plug(c: Ctx, t: Tree): Tree
    decreases c
  {
    match c
    case Top => t
    case InL(up, n, red, r) => Plug(up, Node(t, n, red, r))
    case InR(l, n, red, up) => Plug(up, Node(l, n, red, t))
  }

  ghost function Depth(c: Ctx): nat {
    if c.Top? then 0 else 1 + Depth(c.up)
  }

  ghost function Root(nil: Order, t: Tree): Order { if t.Leaf? then nil else t.item }
  ghost function Parent(c: Ctx): Order? { if c.Top? then null else c.item }

  /** No order occurs twice. */
  ghost predicate Distinct(t: Tree) {
    t.Node? ==>
      && t.item !in Elems(t.left) && t.item !in Elems(t.right)
      && Elems(t.left) !! Elems(t.right)
      && Distinct(t.left) && Distinct(t.right)
  }

  ghost predicate CtxDistinct(c: Ctx) {
    match c
    case Top => true
    case InL(up, n, _, r) =>
      n !in Elems(r) && n !in CtxElems(up) && Elems(r) !! CtxElems(up) && Distinct(r) && CtxDistinct(up)
    case InR(l, n, _, up) =>
      n !in Elems(l) && n !in CtxElems(up) && Elems(l) !! CtxElems(up) && Distinct(l) && CtxDistinct(up)
  }

  /** Pointer `r`, whose parent is `p`, is the root of a coherent linked form of `t`. */
  ghost predicate Rep(h: Links, nil: Order, r: Order?, p: Order?, t: Tree)
    decreases t
  {
    match t
    case Leaf => r == nil
    case Node(l, n, red, rt) =>
      && r == n && n != nil && n in h
      && h[n].parent == p && h[n].red == red
      && Rep(h, nil, h[n].left, n, l) && Rep(h, nil, h[n].right, n, rt)
  }

  /** The links around the hole of `c` are coherent when pointer `r` sits in the hole. */
  ghost predicate RepCtx(h: Links, nil: Order, root: Order?, c: Ctx, r: Order?) {
    match c
    case Top => root == r
    case InL(up, n, red, rt) =>
      && n != nil && n in h
      && h[n].left == r && h[n].parent == Parent(up) && h[n].red == red
      && Rep(h, nil, h[n].right, n, rt) && RepCtx(h, nil, root, up, n)
    case InR(l, n, red, up) =>
      && n != nil && n in h
      && h[n].right == r && h[n].parent == Parent(up) && h[n].red == red
      && Rep(h, nil, h[n].left, n, l) && RepCtx(h, nil, root, up, n)
  }

  /** The links `h` and the pointer `root` form exactly the tree `t`. */
  ghost predicate Coherent(h: Links, nil: Order, root: Order?, t: Tree) {
    h.Keys == Elems(t) && nil !in h.Keys && Distinct(t) && Rep(h, nil, root, null, t)
  }

  // ---- Plugging -------------------------------------------------------------------------

  lemma {:induction false} PlugElems(c: Ctx, t: Tree)
    ensures Elems(Plug(c, t)) == CtxElems(c) + Elems(t)
    decreases c
  {
    match c
    case Top =>
    case InL(up, n, red, r) => PlugElems(up, Node(t, n, red, r));
    case InR(l, n, red, up) => PlugElems(up, Node(l, n, red, t));
  }

  lemma {:induction false} PlugNode(c: Ctx, t: Tree)
    requires t.Node?
    ensures Plug(c, t).Node?
    decreases c
  {
    match c
    case Top =>
    case InL(up, n, red, r) => PlugNode(up, Node(t, n, red, r));
    case InR(l, n, red, up) => PlugNode(up, Node(l, n, red, t));
  }

  lemma {:induction false} PlugWalk(c: Ctx, t: Tree)
    ensures InOrder(Plug(c, t)) == Before(c) + InOrder(t) + After(c)
    decreases c
  {
    match c
    case Top =>
    case InL(up, n, red, r) =>
      PlugWalk(up, Node(t, n, red, r));
      Regroup(Before(up), InOrder(t), [n] + InOrder(r), After(up));
      assert InOrder(t) + [n] + InOrder(r) == InOrder(t) + ([n] + InOrder(r));
    case InR(l, n, red, up) =>
      PlugWalk(up, Node(l, n, red, t));
      Regroup(Before(up), InOrder(l) + [n], InOrder(t), After(up));
      assert Before(up) + InOrder(l) + [n] == Before(up) + (InOrder(l) + [n]);
  }

  lemma Regroup<T>(a: seq<T>, b: seq<T>, c: seq<T>, d: seq<T>)
    ensures a + (b + c) + d == (a + b) + c + d == a + b + (c + d)
  {
  }

  lemma PlugWalkNode(c: Ctx, t: Tree)
    requires t.Node?
    ensures InOrder(Plug(c, t)) == (Before(c) + InOrder(t.left)) + [t.item] + (InOrder(t.right) + After(c))
  {
    PlugWalk(c, t);
    Regroup(Before(c), InOrder(t.left), [t.item] + InOrder(t.right), After(c));
  }

  lemma {:induction false} PlugDistinct(c: Ctx, t: Tree)
    ensures Distinct(Plug(c, t)) <==> CtxDistinct(c) && Distinct(t) && CtxElems(c) !! Elems(t)
    decreases c
  {
    match c
    case Top =>
    case InL(up, n, red, r) => PlugDistinct(up, Node(t, n, red, r));
    case InR(l, n, red, up) => PlugDistinct(up, Node(l, n, red, t));
  }

  lemma {:induction false} PlugRep(h: Links, nil: Order, root: Order?, c: Ctx, t: Tree)
    ensures Rep(h, nil, root, null, Plug(c, t)) <==>
            RepCtx(h, nil, root, c, Root(nil, t)) && Rep(h, nil, Root(nil, t), Parent(c), t)
    decreases c
  {
    match c
    case Top =>
    case InL(up, n, red, r) => PlugRep(h, nil, root, up, Node(t, n, red, r));
    case InR(l, n, red, up) => PlugRep(h, nil, root, up, Node(l, n, red, t));
  }

  lemma RepRoot(h: Links, nil: Order, r: Order?, p: Order?, t: Tree)
    requires Rep(h, nil, r, p, t)
    ensures r == Root(nil, t)
    ensures t.Node? ==> h[t.item].left == Root(nil, t.left) && h[t.item].right == Root(nil, t.right)
  {
    if t.Node? {
      assert Rep(h, nil, h[t.item].left, t.item, t.left);
      assert Rep(h, nil, h[t.item].right, t.item, t.right);
    }
  }

  lemma {:induction false} WalkElems(t: Tree)
    ensures forall o :: o in InOrder(t) <==> o in Elems(t)
    ensures forall i :: 0 <= i < |InOrder(t)| ==> InOrder(t)[i] in Elems(t)
    decreases t
  {
    if t.Node? { WalkElems(t.left); WalkElems(t.right); }
  }

  // ---- Framing --------------------------------------------------------------------------

  lemma {:induction false} RepFrame(h: Links, h': Links, nil: Order, r: Order?, p: Order?, t: Tree)
    requires Rep(h, nil, r, p, t)
    requires forall n :: n in Elems(t) ==> n in h' && n in h && h'[n] == h[n]
    ensures Rep(h', nil, r, p, t)
    decreases t
  {
    if t.Node? {
      RepFrame(h, h', nil, h[t.item].left, t.item, t.left);
      RepFrame(h, h', nil, h[t.item].right, t.item, t.right);
    }
  }

  /** A subtree whose root alone got a new parent. */
  lemma {:induction false} RepReparent(h: Links, h': Links, nil: Order, p: Order?, p': Order?, t: Tree)
    requires Rep(h, nil, Root(nil, t), p, t) && Distinct(t)
    requires forall n :: n in Elems(t) ==> n in h' && n in h
    requires forall n :: n in Elems(t) && n != Root(nil, t) ==> h'[n] == h[n]
    requires t.Node? ==> h'[t.item] == h[t.item].(parent := p')
    ensures Rep(h', nil, Root(nil, t), p', t)
  {
    if t.Node? {
      RepFrame(h, h', nil, h[t.item].left, t.item, t.left);
      RepFrame(h, h', nil, h[t.item].right, t.item, t.right);
    }
  }

  /** A context whose hole alone got a new occupant. */
  lemma {:induction false} CtxReplace(h: Links, h': Links, nil: Order, root: Order?, root': Order?,
                                      c: Ctx, r: Order?, r': Order?)
    requires RepCtx(h, nil, root, c, r) && CtxDistinct(c)
    requires forall n :: n in CtxElems(c) ==> n in h' && n in h
    requires forall n :: n in CtxElems(c) && n != Parent(c) ==> h'[n] == h[n]
    requires c.InL? ==> h'[c.item] == h[c.item].(left := r')
    requires c.InR? ==> h'[c.item] == h[c.item].(right := r')
    requires root' == if c.Top? then r' else root
    ensures RepCtx(h', nil, root', c, r')
  {
    match c
    case Top =>
    case InL(up, n, red, rt) =>
      RepFrame(h, h', nil, h[n].right, n, rt);
      CtxFrame(h, h', nil, root, up, n);
    case InR(l, n, red, up) =>
      RepFrame(h, h', nil, h[n].left, n, l);
      CtxFrame(h, h', nil, root, up, n);
  }

  lemma {:induction false} CtxFrame(h: Links, h': Links, nil: Order, root: Order?, c: Ctx, r: Order?)
    requires RepCtx(h, nil, root, c, r)
    requires forall n :: n in CtxElems(c) ==> n in h' && n in h && h'[n] == h[n]
    ensures RepCtx(h', nil, root, c, r)
    decreases c
  {
    match c
    case Top =>
    case InL(up, n, red, rt) =>
      RepFrame(h, h', nil, h[n].right, n, rt);
      CtxFrame(h, h', nil, root, up, n);
    case InR(l, n, red, up) =>
      RepFrame(h, h', nil, h[n].left, n, l);
      CtxFrame(h, h', nil, root, up, n);
  }

  // ---- Reading the links at a spot --------------------------------------------------------

  /** Walking the zipper down one step. */
  lemma Down(c: Ctx, t: Tree)
    requires t.Node?
    ensures Plug(InL(c, t.item, t.red, t.right), t.left) == Plug(c, t) == Plug(InR(t.left, t.item, t.red, c), t.right)
    ensures forall e :: e in After(InL(c, t.item, t.red, t.right)) <==>
                        e == t.item || e in InOrder(t.right) || e in After(c)
    ensures forall e :: e in Before(InR(t.left, t.item, t.red, c)) <==>
                        e == t.item || e in InOrder(t.left) || e in Before(c)
  {
    assert t == Node(t.left, t.item, t.red, t.right);
  }

  /** The links at the root of a plugged, non-empty subtree. */
  lemma Focus(h: Links, nil: Order, root: Order?, c: Ctx, t: Tree)
    requires Coherent(h, nil, root, Plug(c, t)) && t.Node?
    ensures Elems(t) <= h.Keys && CtxElems(c) !! Elems(t)
    ensures t.item in Elems(t) && t.item != nil
    ensures h[t.item] == Cell(Root(nil, t.left), Root(nil, t.right), Parent(c), t.red)
    ensures t.left.Node? ==> t.left.item in Elems(t) && t.left.item != t.item
    ensures t.right.Node? ==> t.right.item in Elems(t) && t.right.item != t.item
    ensures t.left.Node? && t.right.Node? ==> t.left.item != t.right.item
    ensures c.Top? <==> root == t.item
    ensures !c.Top? ==> c.item in h && c.item in CtxElems(c) && c.item != nil
    ensures c.InL? ==> h[c.item].left == t.item && h[c.item].right != t.item
    ensures c.InR? ==> h[c.item].right == t.item && h[c.item].left != t.item
  {
    PlugElems(c, t); PlugDistinct(c, t); PlugRep(h, nil, root, c, t);
    RepRoot(h, nil, t.item, Parent(c), t);
    match c
    case Top =>
    case InL(up, n, _, r) => RepRoot(h, nil, h[n].right, n, r);
    case InR(l, n, _, up) => RepRoot(h, nil, h[n].left, n, l);
  }
}
