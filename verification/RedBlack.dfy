/** Red-black shapes: what insertions and removals keep of them, and the height bound they give. */
module RedBlack {
  import opened Colours

  /** No red order has a red child. */
  predicate NoRedRed(s: Shape) {
    s.Fork? ==>
      && (s.red ==> !Red(s.left) && !Red(s.right))
      && NoRedRed(s.left) && NoRedRed(s.right)
  }

  /** Every path down from `s` meets exactly `k` black orders. */
  predicate Balanced(s: Shape, k: nat) {
    match s
    case Tip => k == 0
    case Fork(l, true, r) => Balanced(l, k) && Balanced(r, k)
    case Fork(l, false, r) => k > 0 && Balanced(l, k - 1) && Balanced(r, k - 1)
  }

  function BlackHeight(s: Shape): nat {
    if s.Tip? then 0 else BlackHeight(s.left) + if s.red then 0 else 1
  }

  predicate RedBlackShape(s: Shape) {
    !Red(s) && NoRedRed(s) && Balanced(s, BlackHeight(s))
  }

  lemma BalancedHeight(s: Shape, k: nat)
    requires Balanced(s, k)
    ensures BlackHeight(s) == k
  {
  }

  predicate SpotRed(p: Spot) { !p.Whole? && p.red }

  /** Around the hole everything is a red-black shape that expects `k` black orders below the hole. */
  predicate SpotBalanced(p: Spot, k: nat)
    decreases p
  {
    p.Whole? ||
      (var w := Beside(p);
       && Balanced(w, k) && NoRedRed(w)
       && (p.red ==> !Red(w) && !SpotRed(p.up)) && SpotBalanced(p.up, if p.red then k else k + 1))
  }

  predicate RootBlack(p: Spot)
    decreases p
  {
    p.Whole? || if p.up.Whole? then !p.red else RootBlack(p.up)
  }

  function SpotBlack(p: Spot): nat
    decreases p
  {
    if p.Whole? then 0 else SpotBlack(p.up) + if p.red then 0 else 1
  }

  /** One level up. */
  lemma FilledUp(p: Spot, s: Shape)
    requires !p.Whole?
    ensures Filled(p, s) == Filled(p.up, Above(p, s, p.red, Beside(p)))
  {
  }

  lemma {:induction false} FilledRoot(p: Spot, s: Shape)
    ensures !p.Whole? ==> (Red(Filled(p, s)) <==> !RootBlack(p))
    decreases p
  {
    if !p.Whole? {
      FilledUp(p, s);
      FilledRoot(p.up, Above(p, s, p.red, Beside(p)));
    }
  }

  /** A sound filling of a sound context is sound, and conversely. */
  lemma {:induction false} FilledRedBlack(p: Spot, s: Shape, k: nat)
    ensures NoRedRed(Filled(p, s)) && Balanced(Filled(p, s), k + SpotBlack(p)) <==>
            SpotBalanced(p, k) && NoRedRed(s) && Balanced(s, k) && (Red(s) ==> !SpotRed(p))
    decreases p
  {
    if !p.Whole? {
      FilledUp(p, s);
      FilledRedBlack(p.up, Above(p, s, p.red, Beside(p)), if p.red then k else k + 1);
    }
  }

  /** A red-black shape, seen from any spot in it. */
  lemma {:induction false} SpotInRedBlack(p: Spot, s: Shape) returns (k: nat)
    requires RedBlackShape(Filled(p, s))
    ensures SpotBalanced(p, k) && NoRedRed(s) && Balanced(s, k) && (Red(s) ==> !SpotRed(p)) && RootBlack(p)
    ensures BlackHeight(Filled(p, s)) == k + SpotBlack(p)
  {
    k := SpotHeight(p, s, BlackHeight(Filled(p, s)));
    FilledRedBlack(p, s, k);
    FilledRoot(p, s);
  }

  lemma {:induction false} SpotHeight(p: Spot, s: Shape, b: nat) returns (k: nat)
    requires Balanced(Filled(p, s), b)
    ensures b == k + SpotBlack(p) && Balanced(s, k)
    decreases p
  {
    k := b;
    if !p.Whole? {
      FilledUp(p, s);
      k := SpotHeight(p.up, Above(p, s, p.red, Beside(p)), b);
      k := if p.red then k else k - 1;
    }
  }

  // ---- Insertion --------------------------------------------------------------------------

  /** All is well except that the red root of `s` may sit below a red parent. */
  predicate Fixable(p: Spot, s: Shape, k: nat) {
    Red(s) && SpotBalanced(p, k) && NoRedRed(s) && Balanced(s, k)
  }

  lemma LiftedSound(p: Spot, s: Shape, k: nat)
    requires Fixable(p, s, k) && SpotRed(p) && !p.up.Whole? && !Red(Beside(p.up))
    ensures Balanced(Lifted(p, s), k + 1) && NoRedRed(Lifted(p, s)) && SpotBalanced(p.up.up, k + 1)
  {
    var u, b := Beside(p.up), Beside(p);
    assert !p.up.red && SpotBalanced(p.up, k);
    assert Balanced(b, k) && Balanced(u, k) && Balanced(s.left, k) && Balanced(s.right, k);
  }

  lemma {:induction false} MendedRedBlack(p: Spot, s: Shape, k: nat)
    requires Fixable(p, s, k) && RootBlack(p)
    ensures RedBlackShape(Mended(p, s))
    decreases p
  {
    if !SpotRed(p) {
      FilledOver(p, s, k);
    } else if Red(Beside(p.up)) {
      var u, q := Beside(p.up), Above(p, s, false, Beside(p));
      assert SpotBalanced(p.up, k);
      assert Balanced(Blackened(u), k + 1) && NoRedRed(Blackened(u));
      assert Balanced(q, k + 1) && NoRedRed(q);
      MendedRedBlack(p.up.up, Above(p.up, q, true, Blackened(u)), k + 1);
    } else {
      var t := Lifted(p, s);
      LiftedSound(p, s, k);
      FilledRedBlack(p.up.up, t, k + 1);
      FilledRoot(p.up.up, t);
      BalancedHeight(Filled(p.up.up, t), k + 1 + SpotBlack(p.up.up));
    }
  }

  /** The fix-up is over: the parent is black or missing, and the root is painted black. */
  lemma FilledOver(p: Spot, s: Shape, k: nat)
    requires Fixable(p, s, k) && !SpotRed(p) && RootBlack(p)
    ensures RedBlackShape(Blackened(Filled(p, s)))
  {
    FilledRedBlack(p, s, k);
    FilledRoot(p, s);
    if p.Whole? {
      assert Balanced(Blackened(s), k + 1);
      BalancedHeight(Blackened(s), k + 1);
    } else {
      BalancedHeight(Filled(p, s), k + SpotBlack(p));
    }
  }

  /** An insertion anywhere keeps a red-black shape one, with one order more. */
  lemma GrownRedBlack(s: Shape, n: nat)
    requires RedBlackShape(s) && n <= Size(s)
    ensures RedBlackShape(Grown(s, n))
  {
    FreeFills(Whole, s, n);
    var p := Free(Whole, s, n);
    var k := SpotInRedBlack(p, Tip);
    MendedRedBlack(p, NEWCOMER, k);
  }

  // ---- Height -----------------------------------------------------------------------------

  function Height(s: Shape): nat {
    if s.Tip? then 0 else 1 + if Height(s.left) >= Height(s.right) then Height(s.left) else Height(s.right)
  }

  function Pow2(k: nat): nat { if k == 0 then 1 else 2 * Pow2(k - 1) }

  lemma {:induction false} HeightBound(s: Shape, k: nat)
    requires NoRedRed(s) && Balanced(s, k)
    ensures Height(s) <= 2 * k + if Red(s) then 1 else 0
    ensures Pow2(k) <= Size(s) + 1
    decreases s
  {
    if s.Fork? {
      var j := if s.red then k else k - 1;
      HeightBound(s.left, j);
      HeightBound(s.right, j);
    }
  }

  lemma {:induction false} Pow2Above(b: nat, a: nat)
    requires b < a
    ensures 0 < Pow2(b) < Pow2(a)
  {
    if a > b + 1 { Pow2Above(b, a - 1); }
    if b > 0 { Pow2Above(b - 1, b); }
  }

  /** A red-black shape of n orders is no higher than 2 log2(n + 1). */
  lemma {:induction false} RedBlackHeight(s: Shape, b: nat)
    requires RedBlackShape(s) && Size(s) + 1 < Pow2(b)
    ensures Height(s) < 2 * b
  {
    HeightBound(s, BlackHeight(s));
    if b <= BlackHeight(s) {
      if b < BlackHeight(s) { Pow2Above(b, BlackHeight(s)); }
      assert false;
    }
  }

  lemma {:induction false} LeftBelowHeight(s: Shape)
    requires s.Fork?
    ensures LeftDepth(s) < Height(s)
  {
    if s.left.Fork? { LeftBelowHeight(s.left); }
  }

  /** A red-black tree would need more than 2^500 - 2 orders to have a front a thousand steps away. */
  lemma DepthWithinLimit(s: Shape)
    requires s.Fork?
    ensures RedBlackShape(s) && Size(s) + 1 < Pow2(500) ==> LeftDepth(s) < 999
  {
    if RedBlackShape(s) && Size(s) + 1 < Pow2(500) {
      RedBlackHeight(s, 500);
      LeftBelowHeight(s);
    }
  }

  // ---- Removal ----------------------------------------------------------------------------

  function OnlyChild(t: Shape): Shape
    requires t.Fork?
  {
    if t.left.Tip? then t.right else t.left
  }

  /** No order below is left to carry the blackness of the root of `t`. */
  predicate LosesBlack(t: Shape)
    requires t.Fork?
  {
    !t.red && OnlyChild(t).Tip?
  }

  /** An only child is red, so a fix-up that starts at it paints it black and never enters its loop. */
  predicate OnlyRedChild(t: Shape)
    requires t.Fork?
  {
    OnlyChild(t).Fork? ==> OnlyChild(t).red && !t.red
  }

  /** In a red-black shape an only child is a red leaf below a black order, so the fix-up never loops. The
      shape stays one exactly when no blackness goes missing, or nothing is left. */
  lemma SplicedRedBlack(p: Spot, t: Shape, nilRed: bool)
    requires t.Fork? && (t.left.Tip? || t.right.Tip?) && RedBlackShape(Filled(p, t))
    ensures Spliced(p, t, nilRed).Kept? && Spliced(p, t, nilRed).canvas.nilRed == nilRed
    ensures OnlyRedChild(t)
    ensures var s := Spliced(p, t, nilRed).canvas.shape;
      NoRedRed(s) && !Red(s) && (RedBlackShape(s) <==> p.Whole? || !LosesBlack(t))
  {
    var k := SpotInRedBlack(p, t);
    var child := OnlyChild(t);
    FilledRoot(p, t);
    if LosesBlack(t) {
      assert k == 1;
      HoleNoRedRed(p, 1);
      FilledRoot(p, Tip);
      if !p.Whole? { Lopsided(p); }
    } else {
      var s := if t.red then child else Blackened(child);
      assert child.Fork? ==> child.red && !t.red && k == 1;
      assert NoRedRed(s) && Balanced(s, k);
      FilledRedBlack(p, s, k);
      FilledRoot(p, s);
      BalancedHeight(Filled(p, s), k + SpotBlack(p));
    }
  }

  /** Emptying a hole never makes two reds meet. */
  lemma {:induction false} HoleNoRedRed(p: Spot, k: nat)
    requires SpotBalanced(p, k)
    ensures NoRedRed(Filled(p, Tip))
    decreases p
  {
    if !p.Whole? {
      FilledUp(p, Tip);
      FilledNoRedRed(p.up, Above(p, Tip, p.red, Beside(p)), if p.red then k else k + 1);
    }
  }

  lemma {:induction false} FilledNoRedRed(p: Spot, s: Shape, k: nat)
    requires SpotBalanced(p, k) && NoRedRed(s) && (Red(s) ==> !SpotRed(p))
    ensures NoRedRed(Filled(p, s))
    decreases p
  {
    if !p.Whole? {
      FilledUp(p, s);
      FilledNoRedRed(p.up, Above(p, s, p.red, Beside(p)), if p.red then k else k + 1);
    }
  }

  /** A hole that expects one black order does not take an empty shape. */
  lemma Lopsided(p: Spot)
    requires SpotBalanced(p, 1) && !p.Whole?
    ensures !Balanced(Filled(p, Tip), BlackHeight(Filled(p, Tip)))
  {
    var b := BlackHeight(Filled(p, Tip));
    if Balanced(Filled(p, Tip), b) {
      FilledUp(p, Tip);
      var k := SpotHeight(p.up, Above(p, Tip, p.red, Beside(p)), b);
      BalancedHeight(Beside(p), 0);
      BalancedHeight(Beside(p), 1);
    }
  }

  /** The subtree whose root really leaves its place: that of the `i`-th order, or of the one behind it. */
  function Leaver(s: Shape, i: nat): Place
    requires i < Size(s)
  {
    FindSize(Whole, s, i);
    var at := Find(Whole, s, i);
    if at.sub.left.Tip? || at.sub.right.Tip? then at else Find(Whole, s, i + 1)
  }

  /** Removing the `i`-th order of a red-black shape keeps it one unless a childless black order goes
      missing and something else is left. */
  predicate KeepsRedBlack(s: Shape, i: nat)
    requires i < Size(s)
  {
    !LosesBlack(Leaver(s, i).sub) || Leaver(s, i).spot.Whole?
  }

  /** Removing any order of a red-black shape: the fix-up does not loop, no two reds meet, and the sentinel keeps
      its colour. */
  lemma CutRedBlack(c: Canvas, i: nat)
    requires i < Size(c.shape) && RedBlackShape(c.shape)
    ensures var v := Leaver(c.shape, i);
      OnlyRedChild(v.sub) && Filled(v.spot, v.sub) == c.shape && Cut(c, i) == Spliced(v.spot, v.sub, c.nilRed)
    ensures Cut(c, i).Kept? && Cut(c, i).canvas.nilRed == c.nilRed
    ensures var s := Cut(c, i).canvas.shape;
      NoRedRed(s) && !Red(s) && (RedBlackShape(s) <==> KeepsRedBlack(c.shape, i))
  {
    var s := c.shape;
    var at := Find(Whole, s, i);
    FindSize(Whole, s, i);
    if at.sub.left.Tip? || at.sub.right.Tip? {
      SplicedRedBlack(at.spot, at.sub, c.nilRed);
    } else {
      FindSize(Whole, s, i + 1);
      NextHasNoLeft(s, i);
      var next := Find(Whole, s, i + 1);
      assert Filled(next.spot, next.sub) == s;
      SplicedRedBlack(next.spot, next.sub, c.nilRed);
    }
  }

  // ---- The removal fix-up -------------------------------------------------------------------

  /** All is well except that every path through `s` is one black order short. */
  predicate Short(p: Spot, s: Shape, k: nat) {
    s.Fork? && SpotBalanced(p, k + 1) && NoRedRed(Blackened(s)) && Balanced(s, k)
  }

  lemma LoweredShort(p: Spot, s: Shape, k: nat)
    requires Short(p, s, k) && !p.Whole? && Red(Beside(p))
    ensures Short(Lowered(p), s, k) && Beside(Lowered(p)).Fork? && !Red(Beside(Lowered(p)))
    ensures RootBlack(p) ==> RootBlack(Lowered(p))
  {
    var w, q := Beside(p), Lowered(p);
    assert Balanced(w.left, k + 1) && Balanced(w.right, k + 1) && !p.red;
    assert SpotBalanced(q.up, k + 1);
  }

  /** A black order above two equally high subtrees. */
  lemma BlackFork(a: Shape, b: Shape, k: nat)
    requires Balanced(a, k) && Balanced(b, k) && NoRedRed(a) && NoRedRed(b)
    ensures Balanced(Fork(a, false, b), k + 1) && NoRedRed(Fork(a, false, b))
  {
  }

  lemma TurnedOutSound(p: Spot, w: Shape, k: nat)
    requires !p.Whole? && w.Fork? && !w.red && NoRedRed(w) && Balanced(w, k + 1)
    requires Red(Inner(p, w)) && !Red(Outer(p, w))
    ensures var v := TurnedOut(p, w);
      Balanced(v, k + 1) && NoRedRed(v) && !v.red && Red(Outer(p, v))
  {
    var i := Inner(p, w);
    if p.AtLeft? { BlackFork(i.left, Fork(i.right, true, w.right), k); }
    else { BlackFork(Fork(w.left, true, i.left), i.right, k); }
  }

  /** A black sibling with a red outer child rises: nothing is short any more. */
  lemma RaisedSound(p: Spot, s: Shape, w: Shape, k: nat)
    requires Short(p, s, k) && !s.red && RootBlack(p) && !p.Whole?
    requires w.Fork? && !w.red && NoRedRed(w) && Balanced(w, k + 1) && Red(Outer(p, w))
    ensures RedBlackShape(Filled(p.up, Raised(p, s, w)))
  {
    var t, h := Raised(p, s, w), if p.red then k + 1 else k + 2;
    assert Balanced(w.left, k) && Balanced(w.right, k) && NoRedRed(w.left) && NoRedRed(w.right);
    if p.AtLeft? {
      BlackFork(s, w.left, k);
      assert Balanced(Blackened(w.right), k + 1) && NoRedRed(Blackened(w.right));
    } else {
      BlackFork(w.right, s, k);
      assert Balanced(Blackened(w.left), k + 1) && NoRedRed(Blackened(w.left));
    }
    assert Balanced(t, h) && NoRedRed(t);
    FilledRedBlack(p.up, t, h);
    FilledRoot(p.up, t);
    BalancedHeight(Filled(p.up, t), h + SpotBlack(p.up));
  }

  /** The loop is over: the subtree at hand is red, or everything, and is painted black. */
  lemma ShortOver(p: Spot, s: Shape, k: nat)
    requires Short(p, s, k) && (s.red || p.Whole?) && RootBlack(p)
    ensures RedBlackShape(Filled(p, Blackened(s)))
  {
    var b, h := Blackened(s), if s.red then k + 1 else k;
    assert Balanced(b, h) && NoRedRed(b);
    FilledRedBlack(p, b, h);
    FilledRoot(p, b);
    BalancedHeight(Filled(p, b), h + SpotBlack(p));
  }

  /** With a black sentinel the fix-up repairs every shape that is short below one spot, and leaves the
      sentinel black. */
  lemma {:induction false} RestoredRepairs(p: Spot, s: Shape, k: nat)
    requires Short(p, s, k) && RootBlack(p)
    ensures Restored(p, s, false).Kept? && !Restored(p, s, false).canvas.nilRed
    ensures RedBlackShape(Restored(p, s, false).canvas.shape)
    decreases if p.Whole? || s.red then 0 else 1 + Depth(p), 1
  {
    if p.Whole? || s.red {
      ShortOver(p, s, k);
    } else if Red(Beside(p)) {
      LoweredShort(p, s, k);
      LevelledRepairs(Lowered(p), s, k);
    } else {
      LevelledRepairs(p, s, k);
    }
  }

  lemma {:induction false} LevelledRepairs(p: Spot, s: Shape, k: nat)
    requires Short(p, s, k) && RootBlack(p) && !p.Whole? && !s.red && !Red(Beside(p))
    ensures Levelled(p, s, false).Kept? && !Levelled(p, s, false).canvas.nilRed
    ensures RedBlackShape(Levelled(p, s, false).canvas.shape)
    decreases if p.red then 1 else 1 + Depth(p), 0
  {
    var w := Beside(p);
    assert w.Fork? && Balanced(w.left, k) && Balanced(w.right, k);
    if !Red(w.left) && !Red(w.right) {
      var t := Above(p, s, p.red, w.(red := true));
      assert Balanced(w.(red := true), k) && NoRedRed(w.(red := true));
      RestoredRepairs(p.up, t, if p.red then k else k + 1);
    } else if Red(Outer(p, w)) {
      RaisedSound(p, s, w, k);
    } else {
      TurnedOutSound(p, w, k);
      RaisedSound(p, s, TurnedOut(p, w), k);
    }
  }
}
