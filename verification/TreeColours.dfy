/** The steps of the two fix-ups on linked trees, seen as steps of the functions on colours. */
module TreeColours {
  import opened Orders
  import opened TreeShape
  import opened TreePaint
  import opened TreeRemoval
  import Colours
  import RedBlack

  ghost function Coloured(t: Tree): Colours.Shape {
    if t.Leaf? then Colours.Tip else Colours.Fork(Coloured(t.left), t.red, Coloured(t.right))
  }

  /** One level of the colours of a context. */
  lemma HoleUp(c: Ctx)
    requires !c.Top?
    ensures c.InL? ==> Hole(c) == Colours.AtLeft(Hole(c.up), c.red, Coloured(c.right))
    ensures c.InR? ==> Hole(c) == Colours.AtRight(Coloured(c.left), c.red, Hole(c.up))
    ensures Colours.Beside(Hole(c)) == Coloured(Beside(c))
  {
  }

  lemma Twig(l: Tree, n: Order, red: bool, r: Tree)
    ensures Coloured(Node(l, n, red, r)) == Colours.Fork(Coloured(l), red, Coloured(r))
  {
  }

  ghost function Hole(c: Ctx): Colours.Spot {
    match c
    case Top => Colours.Whole
    case InL(up, _, red, r) => Colours.AtLeft(Hole(up), red, Coloured(r))
    case InR(l, _, red, up) => Colours.AtRight(Coloured(l), red, Hole(up))
  }

  lemma {:induction false} ColouredPlug(c: Ctx, t: Tree)
    ensures Coloured(Plug(c, t)) == Colours.Filled(Hole(c), Coloured(t))
    decreases c
  {
    match c
    case Top =>
    case InL(up, n, red, r) => ColouredPlug(up, Node(t, n, red, r));
    case InR(l, n, red, up) => ColouredPlug(up, Node(l, n, red, t));
  }

  lemma {:induction false} ColouredSize(t: Tree)
    ensures Colours.Size(Coloured(t)) == |InOrder(t)|
  {
    if t.Node? { ColouredSize(t.left); ColouredSize(t.right); }
  }

  lemma {:induction false} HoleRank(c: Ctx)
    ensures Colours.Ahead(Hole(c)) == |Before(c)|
  {
    if c.InL? { HoleRank(c.up); }
    if c.InR? { HoleRank(c.up); ColouredSize(c.left); }
  }

  /** The colours after an order of the rank `n` joined `t`. */
  ghost function Grown(t: Tree, n: nat): Colours.Shape
    requires n <= |InOrder(t)|
  {
    ColouredSize(t);
    Colours.Grown(Coloured(t), n)
  }

  /** The colours after the order of the rank `i` left `t`, the sentinel being as red as `nilRed` says. */
  ghost function Cut(t: Tree, nilRed: bool, i: nat): Colours.Outcome
    requires i < |InOrder(t)|
  {
    ColouredSize(t);
    Colours.Cut(Colours.Canvas(Coloured(t), nilRed), i)
  }

  ghost predicate IsRedBlack(t: Tree) { RedBlack.RedBlackShape(Coloured(t)) }

  /** Removing the `i`-th order of a red-black tree leaves one. */
  ghost predicate StaysRedBlack(t: Tree, i: nat)
    requires i < |InOrder(t)|
  {
    ColouredSize(t);
    RedBlack.KeepsRedBlack(Coloured(t), i)
  }

  lemma GrownStays(t: Tree, n: nat)
    requires n <= |InOrder(t)| && IsRedBlack(t)
    ensures RedBlack.RedBlackShape(Grown(t, n))
  {
    ColouredSize(t);
    RedBlack.GrownRedBlack(Coloured(t), n);
  }

  lemma CutStays(t: Tree, nilRed: bool, i: nat)
    requires i < |InOrder(t)| && IsRedBlack(t)
    ensures var out := Cut(t, nilRed, i);
      && out.Kept? && out.canvas.nilRed == nilRed && RedBlack.NoRedRed(out.canvas.shape)
      && (RedBlack.RedBlackShape(out.canvas.shape) <==> StaysRedBlack(t, i))
  {
    ColouredSize(t);
    RedBlack.CutRedBlack(Colours.Canvas(Coloured(t), nilRed), i);
  }

  /** The front of the walk lies as many steps to the left as in the colours. */
  lemma {:induction false} SpineDepth(d: Ctx, m: Tree)
    requires LeftSpine(d) && m.Node?
    ensures Plug(d, m).Node?
    ensures Colours.LeftDepth(Coloured(Plug(d, m))) == Depth(d) + Colours.LeftDepth(Coloured(m))
    decreases d
  {
    if d.InL? { SpineDepth(d.up, Node(m, d.item, d.red, d.right)); }
  }

  // ---- Insertion --------------------------------------------------------------------------

  ghost function MendedAt(c: Ctx, t: Tree): Colours.Shape
    requires t.Node?
  {
    Colours.Mended(Hole(c), Coloured(t))
  }

  lemma PushUpMended(c: Ctx, t: Tree)
    requires t.Node? && CtxRed(c) && !c.up.Top? && IsRed(Uncle(c))
    ensures MendedAt(c, t) == MendedAt(c.up.up, PushedUp(c, t))
  {
    var u, p := Uncle(c), BlackParent(c, t);
    HoleUp(c); HoleUp(c.up);
    assert Coloured(Painted(u, false)) == Colours.Blackened(Coloured(u));
    assert Coloured(p) == Colours.Above(Hole(c), Coloured(t), false, Coloured(Beside(c)));
    assert Coloured(PushedUp(c, t)) == Colours.Above(Hole(c.up), Coloured(p), true, Coloured(Painted(u, false)));
  }

  /** Rotating an inner child into an outer one. */
  lemma InnerMended(c: Ctx, t: Tree)
    requires IsRed(t) && CtxRed(c) && !c.up.Top? && !IsRed(Uncle(c))
    ensures c.up.InL? && c.InR? ==>
      MendedAt(c, t) == MendedAt(InL(c.up, t.item, true, t.right), Node(c.left, c.item, true, t.left))
    ensures c.up.InR? && c.InL? ==>
      MendedAt(c, t) == MendedAt(InR(t.left, t.item, true, c.up), Node(t.right, c.item, true, c.right))
  {
    HoleUp(c); HoleUp(c.up);
    Twig(t.left, t.item, t.red, t.right);
    if c.up.InL? && c.InR? {
      HoleUp(InL(c.up, t.item, true, t.right));
      Twig(c.left, c.item, true, t.left);
    }
    if c.up.InR? && c.InL? {
      HoleUp(InR(t.left, t.item, true, c.up));
      Twig(t.right, c.item, true, c.right);
    }
  }

  /** Rotating the grandparent down. */
  lemma OuterMended(c: Ctx, t: Tree)
    requires IsRed(t) && CtxRed(c) && !c.up.Top? && !IsRed(Uncle(c))
    ensures c.up.InL? && c.InL? ==>
      MendedAt(c, t) == MendedAt(InL(c.up.up, c.item, false, Node(c.right, c.up.item, true, c.up.right)), t)
    ensures c.up.InR? && c.InR? ==>
      MendedAt(c, t) == MendedAt(InR(Node(c.up.left, c.up.item, true, c.left), c.item, false, c.up.up), t)
  {
    HoleUp(c); HoleUp(c.up);
    if c.up.InL? && c.InL? {
      var side := Node(c.right, c.up.item, true, c.up.right);
      Twig(c.right, c.up.item, true, c.up.right);
      HoleUp(InL(c.up.up, c.item, false, side));
      assert Colours.Lifted(Hole(c), Coloured(t)) == Colours.Fork(Coloured(t), false, Coloured(side));
    }
    if c.up.InR? && c.InR? {
      var side := Node(c.up.left, c.up.item, true, c.left);
      Twig(c.up.left, c.up.item, true, c.left);
      HoleUp(InR(side, c.item, false, c.up.up));
      assert Colours.Lifted(Hole(c), Coloured(t)) == Colours.Fork(Coloured(side), false, Coloured(t));
    }
  }

  /** The loop is over, and the root is painted black. */
  lemma MendedOver(c: Ctx, t: Tree)
    requires t.Node? && !CtxRed(c)
    ensures Coloured(Painted(Plug(c, t), false)) == MendedAt(c, t)
  {
    ColouredPlug(c, t);
  }

  /** Where a newcomer of the rank `|Before(c)|` goes. */
  lemma GrownAt(c: Ctx, n: Order)
    ensures |Before(c)| <= |InOrder(Plug(c, Leaf))|
    ensures Grown(Plug(c, Leaf), |Before(c)|) == MendedAt(c, Node(Leaf, n, true, Leaf))
  {
    PlugWalk(c, Leaf);
    ColouredPlug(c, Leaf);
    HoleRank(c);
    Colours.FreePlace(Hole(c));
  }

  // ---- Removal ----------------------------------------------------------------------------

  ghost function RestoredAt(c: Ctx, t: Tree, nilRed: bool): Colours.Outcome
    requires t.Node?
  {
    Colours.Restored(Hole(c), Coloured(t), nilRed)
  }

  ghost function LevelledAt(c: Ctx, t: Tree, nilRed: bool): Colours.Outcome
    requires t.Node? && !c.Top?
  {
    Colours.Levelled(Hole(c), Coloured(t), nilRed)
  }

  lemma LoweredRestored(c: Ctx, t: Tree, nilRed: bool)
    requires t.Node? && !t.red && !c.Top?
    ensures !IsRed(Beside(c)) ==> RestoredAt(c, t, nilRed) == LevelledAt(c, t, nilRed)
    ensures IsRed(Beside(c)) && c.InL? ==> RestoredAt(c, t, nilRed) == LevelledAt(LoweredLeft(c), t, nilRed)
    ensures IsRed(Beside(c)) && c.InR? ==> RestoredAt(c, t, nilRed) == LevelledAt(LoweredRight(c), t, nilRed)
  {
    var w := Beside(c);
    HoleUp(c);
    if w.Node? { Twig(w.left, w.item, w.red, w.right); }
    if IsRed(w) && c.InL? {
      HoleUp(LoweredLeft(c));
      HoleUp(InL(c.up, w.item, false, w.right));
    }
    if IsRed(w) && c.InR? {
      HoleUp(LoweredRight(c));
      HoleUp(InR(w.left, w.item, false, c.up));
    }
  }

  lemma MissingLevelled(c: Ctx, t: Tree)
    requires t.Node? && !c.Top? && Beside(c).Leaf?
    ensures LevelledAt(c, t, false) == RestoredAt(c.up, Up(c, t, c.red), true)
    ensures LevelledAt(c, t, true) == Colours.Broken
  {
  }

  /** The colour a child pointer shows. */
  ghost predicate Shown(t: Tree, nilRed: bool) { if t.Leaf? then nilRed else t.red }

  ghost function InnerOf(c: Ctx): Tree
    requires !c.Top? && Beside(c).Node?
  {
    if c.InL? then c.right.left else c.left.right
  }

  ghost function OuterOf(c: Ctx): Tree
    requires !c.Top? && Beside(c).Node?
  {
    if c.InL? then c.right.right else c.left.left
  }

  lemma EvenedLevelled(c: Ctx, t: Tree, nilRed: bool)
    requires t.Node? && !c.Top? && Beside(c).Node? && !Shown(InnerOf(c), nilRed) && !Shown(OuterOf(c), nilRed)
    ensures LevelledAt(c, t, nilRed) == RestoredAt(c.up, Evened(c, t), nilRed)
  {
    var w := Beside(c);
    HoleUp(c);
    Twig(w.left, w.item, w.red, w.right);
    Twig(w.left, w.item, true, w.right);
    if c.InL? { Twig(t, c.item, c.red, Painted(w, true)); } else { Twig(Painted(w, true), c.item, c.red, t); }
  }

  /** The outer child shows red, and the sibling rises. */
  lemma RaisedLevelled(c: Ctx, t: Tree, nilRed: bool)
    requires t.Node? && !c.Top? && Beside(c).Node? && Shown(OuterOf(c), nilRed)
    ensures var r := Plug(c.up, if c.InL? then RaisedLeft(c, t) else RaisedRight(c, t));
      r.Node? && LevelledAt(c, t, nilRed) == RestoredAt(Top, r, nilRed && OuterOf(c).Node?)
  {
    var w, top := Beside(c), if c.InL? then RaisedLeft(c, t) else RaisedRight(c, t);
    PlugNode(c.up, top);
    ColouredPlug(c.up, top);
    HoleUp(c);
    Twig(w.left, w.item, w.red, w.right);
    if c.InL? {
      Twig(t, c.item, false, w.left);
      Twig(Node(t, c.item, false, w.left), w.item, c.red, Painted(w.right, false));
    } else {
      Twig(w.right, c.item, false, t);
      Twig(Painted(w.left, false), w.item, c.red, Node(w.right, c.item, false, t));
    }
    assert Coloured(top) == Colours.Raised(Hole(c), Coloured(t), Coloured(w));
  }

  /** Only the inner child shows red: it is turned to the outside first, if it is there. */
  lemma TurnedLevelled(c: Ctx, t: Tree, nilRed: bool)
    requires t.Node? && !c.Top? && Beside(c).Node? && Shown(InnerOf(c), nilRed) && !Shown(OuterOf(c), nilRed)
    ensures InnerOf(c).Leaf? ==> LevelledAt(c, t, nilRed) == Colours.Broken
    ensures InnerOf(c).Node? && c.InL? ==>
      LevelledAt(c, t, nilRed) == LevelledAt(c.(right := TurnedOutRight(c.right)), t, nilRed)
    ensures InnerOf(c).Node? && c.InR? ==>
      LevelledAt(c, t, nilRed) == LevelledAt(c.(left := TurnedOutLeft(c.left)), t, nilRed)
  {
    var w, i := Beside(c), InnerOf(c);
    HoleUp(c);
    Twig(w.left, w.item, w.red, w.right);
    if i.Node? && c.InL? {
      Twig(i.left, i.item, i.red, i.right);
      Twig(i.right, w.item, true, w.right);
      Twig(i.left, i.item, false, Node(i.right, w.item, true, w.right));
      HoleUp(c.(right := TurnedOutRight(w)));
    }
    if i.Node? && c.InR? {
      Twig(i.left, i.item, i.red, i.right);
      Twig(w.left, w.item, true, i.left);
      Twig(Node(w.left, w.item, true, i.left), i.item, false, i.right);
      HoleUp(c.(left := TurnedOutLeft(w)));
    }
  }

  /** The loop is over, and the order at hand is painted black. */
  lemma RestoredOver(c: Ctx, t: Tree, nilRed: bool)
    requires t.Node? && (c.Top? || t.red)
    ensures RestoredAt(c, t, nilRed) == Colours.Kept(Colours.Canvas(Coloured(Plug(c, Painted(t, false))), nilRed))
  {
    ColouredPlug(c, Painted(t, false));
  }

  /** An order with at most one child, by its rank. */
  ghost function SplicedAt(c: Ctx, t: Tree, nilRed: bool): Colours.Outcome
    requires t.Node?
  {
    Colours.Spliced(Hole(c), Coloured(t), nilRed)
  }

  lemma SplicedLoose(c: Ctx, t: Tree, nilRed: bool)
    requires Spliceable(t)
    ensures t.red || OnlyChild(t).Leaf? ==>
      SplicedAt(c, t, nilRed) == Colours.Kept(Colours.Canvas(Coloured(Plug(c, OnlyChild(t))), nilRed))
    ensures !t.red && OnlyChild(t).Node? ==> SplicedAt(c, t, nilRed) == RestoredAt(c, OnlyChild(t), nilRed)
  {
    Twig(t.left, t.item, t.red, t.right);
    ColouredPlug(c, OnlyChild(t));
  }

  /** The subtree of an order is found by the order's rank. */
  lemma PlaceOf(c: Ctx, t: Tree)
    requires t.Node?
    ensures RankOf(c, t) < Colours.Size(Coloured(Plug(c, t)))
    ensures Colours.Find(Colours.Whole, Coloured(Plug(c, t)), RankOf(c, t)) == Colours.Place(Hole(c), Coloured(t))
  {
    ColouredPlug(c, t);
    HoleRank(c);
    ColouredSize(t.left);
    Colours.FindPlace(Hole(c), Coloured(t));
  }

  lemma CutSpliceable(c: Ctx, t: Tree, nilRed: bool)
    requires Spliceable(t)
    ensures RankOf(c, t) < |InOrder(Plug(c, t))|
    ensures Cut(Plug(c, t), nilRed, RankOf(c, t)) == SplicedAt(c, t, nilRed)
  {
    RankWalk(c, t);
    PlaceOf(c, t);
    Twig(t.left, t.item, t.red, t.right);
  }

  /** The successor comes right behind. */
  lemma NextRank(c: Ctx, t: Tree, d: Ctx, m: Tree)
    requires t.Node? && t.right == Plug(d, m) && LeftSpine(d) && m.Node? && m.left.Leaf?
    ensures var cc := Compose(RightOf(c, t), d);
      Plug(cc, m) == Plug(c, t) && RankOf(cc, m) == RankOf(c, t) + 1
  {
    PlugCompose(RightOf(c, t), d, m);
    Down(c, t);
    SpineBefore(RightOf(c, t), d);
  }

  /** An order with two children: the colours are those of its successor leaving its own place. */
  lemma CutSucceeded(c: Ctx, t: Tree, d: Ctx, m: Tree, nilRed: bool)
    requires t.Node? && !Spliceable(t) && t.right == Plug(d, m) && LeftSpine(d) && m.Node? && m.left.Leaf?
    ensures RankOf(c, t) < |InOrder(Plug(c, t))|
    ensures Cut(Plug(c, t), nilRed, RankOf(c, t)) == SplicedAt(Compose(RightOf(c, t), d), m, nilRed)
  {
    RankWalk(c, t);
    NextRank(c, t, d, m);
    PlaceOf(c, t);
    PlaceOf(Compose(RightOf(c, t), d), m);
    Colours.CutFinds(Colours.Canvas(Coloured(Plug(c, t)), nilRed), RankOf(c, t));
    Twig(t.left, t.item, t.red, t.right);
    assert Coloured(t.left).Fork? && Coloured(t.right).Fork?;
  }

  /** Nobody stands ahead on a left spine. */
  lemma {:induction false} SpineBefore(c: Ctx, d: Ctx)
    requires LeftSpine(d)
    ensures Before(Compose(c, d)) == Before(c)
    decreases d
  {
    if d.InL? { SpineBefore(c, d.up); }
  }

  /** The items of a context do not matter. */
  lemma {:induction false} SameHole(c: Ctx, t: Tree, y: Order, d: Ctx)
    requires t.Node?
    ensures Hole(Compose(RightOf(c, t.(item := y)), d)) == Hole(Compose(RightOf(c, t), d))
    decreases d
  {
    if !d.Top? { SameHole(c, t, y, d.up); }
  }

  /** The successor leaves its place, and the order it replaces no longer counts. */
  lemma SucceededColours(c: Ctx, t: Tree, d: Ctx, m: Tree, nilRed: bool)
    requires t.Node? && m.Node? && m.left.Leaf?
    ensures var left, after := SplicedAt(Compose(RightOf(c, t), d), m, nilRed),
      Compose(RightOf(c, t.(item := m.item)), d);
      && (m.red || m.right.Leaf? ==>
            left == Colours.Kept(Colours.Canvas(Coloured(Plug(after, m.right)), nilRed)))
      && (!m.red && m.right.Node? ==> left == RestoredAt(after, m.right, nilRed))
  {
    var cc := Compose(RightOf(c, t), d);
    SplicedLoose(cc, m, nilRed);
    SameHole(c, t, m.item, d);
    ColouredPlug(cc, m.right);
    ColouredPlug(Compose(RightOf(c, t.(item := m.item)), d), m.right);
  }
}
