/** Shapes whose black depth never falls from left to right. Insertions keep it anywhere, and so does removing the
    first order; in such a shape the removal fix-up of the first order always finds its siblings. */
module Rising {
  import opened Colours
  import opened RedBlack

  function Weight(red: bool): nat { if red then 0 else 1 }

  /** How many black orders stand above the first free place, and above the last. */
  function First(s: Shape): nat { if s.Tip? then 0 else Weight(s.red) + First(s.left) }
  function Last(s: Shape): nat { if s.Tip? then 0 else Weight(s.red) + Last(s.right) }

  predicate Rises(s: Shape) {
    s.Fork? ==> Rises(s.left) && Rises(s.right) && Last(s.left) <= First(s.right)
  }

  /** A tree between two operations: no two reds in a row, a black root, black depths that never fall. */
  predicate Sound(s: Shape) { Rises(s) && NoRedRed(s) && !Red(s) }

  // ---- Around a hole ------------------------------------------------------------------------

  lemma {:induction false} RisesInside(p: Spot, s: Shape)
    requires Rises(Filled(p, s))
    ensures Rises(s)
    decreases p
  {
    if !p.Whole? {
      FilledUp(p, s);
      RisesInside(p.up, Above(p, s, p.red, Beside(p)));
    }
  }

  /** What fills a hole matters only by its first and its last depth. */
  lemma {:induction false} RisesAgain(p: Spot, s: Shape, t: Shape)
    requires Rises(Filled(p, s)) && Rises(t) && First(t) == First(s) && Last(t) == Last(s)
    ensures Rises(Filled(p, t))
    decreases p
  {
    if !p.Whole? {
      var s', t' := Above(p, s, p.red, Beside(p)), Above(p, t, p.red, Beside(p));
      FilledUp(p, s);
      FilledUp(p, t);
      RisesInside(p.up, s');
      RisesAgain(p.up, s', t');
    }
  }

  /** Around the hole no two reds meet. */
  predicate NoRedRedAround(p: Spot)
    decreases p
  {
    p.Whole? ||
      (NoRedRed(Beside(p)) && (p.red ==> !Red(Beside(p)) && !SpotRed(p.up)) && NoRedRedAround(p.up))
  }

  lemma {:induction false} FilledNoRed(p: Spot, s: Shape)
    ensures NoRedRed(Filled(p, s)) <==> NoRedRedAround(p) && NoRedRed(s) && (Red(s) ==> !SpotRed(p))
    decreases p
  {
    if !p.Whole? {
      FilledUp(p, s);
      FilledNoRed(p.up, Above(p, s, p.red, Beside(p)));
    }
  }

  // ---- Insertion ----------------------------------------------------------------------------

  /** The rotations move no free place between black depths. */
  lemma LiftedRises(p: Spot, s: Shape)
    requires SpotRed(p) && Red(s) && !p.up.Whole? && !p.up.red
    requires Rises(Above(p.up, Above(p, s, true, Beside(p)), false, Beside(p.up)))
    ensures var g := Above(p.up, Above(p, s, true, Beside(p)), false, Beside(p.up));
      Rises(Lifted(p, s)) && First(Lifted(p, s)) == First(g) && Last(Lifted(p, s)) == Last(g)
  {
    var u := Beside(p.up);
    if p.up.AtLeft? {
      if p.AtLeft? { TurnRight(s, p.right, u); } else { TurnInRight(p.left, s.left, s.right, u); }
    } else {
      if p.AtRight? { TurnLeft(u, p.left, s); } else { TurnInLeft(u, s.left, s.right, p.right); }
    }
  }

  lemma RisesFork(l: Shape, red: bool, r: Shape)
    ensures Rises(Fork(l, red, r)) <==> Rises(l) && Rises(r) && Last(l) <= First(r)
    ensures First(Fork(l, red, r)) == Weight(red) + First(l) && Last(Fork(l, red, r)) == Weight(red) + Last(r)
  {
  }

  ghost predicate SameEnds(s: Shape, t: Shape) { Rises(t) && First(t) == First(s) && Last(t) == Last(s) }

  lemma TurnRight(a: Shape, b: Shape, c: Shape)
    requires Rises(Fork(Fork(a, true, b), false, c))
    ensures SameEnds(Fork(Fork(a, true, b), false, c), Fork(a, false, Fork(b, true, c)))
  {
    assert Rises(Fork(a, true, b));
  }

  lemma TurnLeft(a: Shape, b: Shape, c: Shape)
    requires Rises(Fork(a, false, Fork(b, true, c)))
    ensures SameEnds(Fork(a, false, Fork(b, true, c)), Fork(Fork(a, true, b), false, c))
  {
    assert Rises(Fork(b, true, c));
  }

  lemma TurnInRight(a: Shape, b: Shape, c: Shape, d: Shape)
    requires Rises(Fork(Fork(a, true, Fork(b, true, c)), false, d))
    ensures SameEnds(Fork(Fork(a, true, Fork(b, true, c)), false, d), Fork(Fork(a, true, b), false, Fork(c, true, d)))
  {
    RisesFork(Fork(a, true, Fork(b, true, c)), false, d);
    RisesFork(a, true, Fork(b, true, c));
    RisesFork(b, true, c);
    RisesFork(a, true, b);
    RisesFork(c, true, d);
    RisesFork(Fork(a, true, b), false, Fork(c, true, d));
  }

  lemma TurnInLeft(a: Shape, b: Shape, c: Shape, d: Shape)
    requires Rises(Fork(a, false, Fork(Fork(b, true, c), true, d)))
    ensures SameEnds(Fork(a, false, Fork(Fork(b, true, c), true, d)), Fork(Fork(a, true, b), false, Fork(c, true, d)))
  {
    RisesFork(a, false, Fork(Fork(b, true, c), true, d));
    RisesFork(Fork(b, true, c), true, d);
    RisesFork(b, true, c);
    RisesFork(a, true, b);
    RisesFork(c, true, d);
    RisesFork(Fork(a, true, b), false, Fork(c, true, d));
  }

  lemma LiftedNoRed(p: Spot, s: Shape)
    requires SpotRed(p) && Red(s) && !p.up.Whole? && NoRedRedAround(p) && NoRedRed(s) && !Red(Beside(p.up))
    ensures NoRedRed(Lifted(p, s)) && !Red(Lifted(p, s)) && NoRedRedAround(p.up.up)
  {
    assert NoRedRedAround(p.up);
  }

  /** Nor does painting parent and uncle black and the grandparent red. */
  lemma PushedRises(p: Spot, s: Shape)
    requires SpotRed(p) && Red(s) && !p.up.Whole? && !p.up.red && Red(Beside(p.up))
    requires Rises(Above(p.up, Above(p, s, true, Beside(p)), false, Beside(p.up)))
    ensures var g := Above(p.up, Above(p, s, true, Beside(p)), false, Beside(p.up));
      var t := Above(p.up, Above(p, s, false, Beside(p)), true, Blackened(Beside(p.up)));
      Rises(t) && First(t) == First(g) && Last(t) == Last(g)
  {
  }

  lemma FilledTwice(p: Spot, s: Shape)
    requires !p.Whole? && !p.up.Whole?
    ensures Filled(p, s) == Filled(p.up.up, Above(p.up, Above(p, s, p.red, Beside(p)), p.up.red, Beside(p.up)))
  {
    FilledUp(p, s);
    FilledUp(p.up, Above(p, s, p.red, Beside(p)));
  }

  lemma {:induction false} MendedSound(p: Spot, s: Shape)
    requires Red(s) && NoRedRed(s) && NoRedRedAround(p) && Rises(Filled(p, s))
    ensures Sound(Mended(p, s))
    decreases p
  {
    if p.Whole? || !p.red {
      FilledNoRed(p, s);
    } else if p.up.Whole? {
      FilledUp(p, s);
    } else {
      var g := Above(p.up, Above(p, s, true, Beside(p)), false, Beside(p.up));
      assert !p.up.red && NoRedRedAround(p.up);
      FilledTwice(p, s);
      RisesInside(p.up.up, g);
      if Red(Beside(p.up)) {
        var t := Above(p.up, Above(p, s, false, Beside(p)), true, Blackened(Beside(p.up)));
        PushedRises(p, s);
        RisesAgain(p.up.up, g, t);
        MendedSound(p.up.up, t);
      } else {
        LiftedRises(p, s);
        LiftedNoRed(p, s);
        RisesAgain(p.up.up, g, Lifted(p, s));
        FilledNoRed(p.up.up, Lifted(p, s));
      }
    }
  }

  /** An insertion anywhere keeps it. */
  lemma GrownSound(s: Shape, n: nat)
    requires Sound(s) && n <= Size(s)
    ensures Sound(Grown(s, n))
  {
    var p := Free(Whole, s, n);
    FreeFills(Whole, s, n);
    FilledNoRed(p, Tip);
    RisesAgain(p, Tip, NEWCOMER);
    MendedSound(p, NEWCOMER);
  }

  // ---- Removing the first order ---------------------------------------------------------------

  /** The hole is where nobody stands ahead. */
  predicate Foremost(p: Spot)
    decreases p
  {
    p.Whole? || (p.AtLeft? && Foremost(p.up))
  }

  /** Everything beside the hole rises from the depth `k` on. */
  predicate Fits(p: Spot, k: nat)
    decreases p
  {
    p.Whole? ||
      (Rises(Beside(p)) && k <= First(Beside(p)) && Fits(p.up, Weight(p.red) + Last(Beside(p))))
  }

  lemma {:induction false} FitsFilled(p: Spot, s: Shape)
    requires Foremost(p)
    ensures Rises(Filled(p, s)) <==> Rises(s) && Fits(p, Last(s))
    decreases p
  {
    if !p.Whole? {
      FilledUp(p, s);
      FitsFilled(p.up, Above(p, s, p.red, Beside(p)));
    }
  }

  /** All is well except that every path through `s` has lost one black order, and `s` may be red below a red. */
  predicate Lacking(p: Spot, s: Shape) {
    && s.Fork? && Foremost(p) && RootBlack(p) && Rises(s) && Fits(p, Last(s) + 1)
    && NoRedRed(Blackened(s)) && NoRedRedAround(p)
  }

  predicate Mends(out: Outcome) { out.Kept? && !out.canvas.nilRed && Sound(out.canvas.shape) }

  lemma LoweredLacking(p: Spot, s: Shape)
    requires Lacking(p, s) && !p.Whole? && Red(Beside(p))
    ensures Lacking(Lowered(p), s) && !Red(Beside(Lowered(p)))
  {
    var w, q := Beside(p), Lowered(p);
    assert !p.red && Fits(p.up, 1 + Last(w));
    assert Fits(q.up, Last(w.left));
    assert NoRedRedAround(q.up);
  }

  lemma LackingOver(p: Spot, s: Shape)
    requires Lacking(p, s) && (s.red || p.Whole?)
    ensures Sound(Filled(p, Blackened(s)))
  {
    var b := Blackened(s);
    assert Last(b) <= Last(s) + 1;
    FitsFilled(p, b);
    FilledNoRed(p, b);
    FilledRoot(p, b);
  }

  lemma TurnedOutRises(p: Spot, w: Shape)
    requires p.AtLeft? && w.Fork? && !w.red && NoRedRed(w) && Rises(w) && Red(w.left) && !Red(w.right)
    ensures var v := TurnedOut(p, w);
      && Rises(v) && First(v) == First(w) && Last(v) == Last(w) && !v.red && NoRedRed(v) && Red(v.right)
  {
  }

  lemma RaisedSound(p: Spot, s: Shape, w: Shape)
    requires Lacking(p, s) && !s.red && !p.Whole?
    requires w.Fork? && !w.red && NoRedRed(w) && Rises(w) && Red(w.right)
    requires First(w) == First(Beside(p)) && Last(w) == Last(Beside(p))
    ensures Sound(Blackened(Filled(p.up, Raised(p, s, w))))
  {
    var t := Raised(p, s, w);
    assert Rises(t) && Last(t) == Weight(p.red) + Last(w) && NoRedRed(t);
    FitsFilled(p.up, t);
    FilledNoRed(p.up, t);
  }

  lemma {:induction false} RestoredSound(p: Spot, s: Shape)
    requires Lacking(p, s)
    ensures Mends(Restored(p, s, false))
    decreases if p.Whole? || s.red then 0 else 1 + Depth(p), 1
  {
    if p.Whole? || s.red {
      LackingOver(p, s);
    } else if Red(Beside(p)) {
      LoweredLacking(p, s);
      LevelledSound(Lowered(p), s);
    } else {
      LevelledSound(p, s);
    }
  }

  lemma {:induction false} LevelledSound(p: Spot, s: Shape)
    requires Lacking(p, s) && !p.Whole? && !s.red && !Red(Beside(p))
    ensures Mends(Levelled(p, s, false))
    decreases if p.red then 1 else 1 + Depth(p), 0
  {
    var w := Beside(p);
    assert w.Fork?;
    if !Red(w.left) && !Red(w.right) {
      PaintedLacking(p, s);
      RestoredSound(p.up, Above(p, s, p.red, w.(red := true)));
    } else if Red(w.right) {
      RaisedSound(p, s, w);
    } else {
      TurnedOutRises(p, w);
      RaisedSound(p, s, TurnedOut(p, w));
    }
  }

  lemma PaintedLacking(p: Spot, s: Shape)
    requires Lacking(p, s) && !p.Whole? && !s.red && Beside(p).Fork? && !Beside(p).red
    requires !Red(Beside(p).left) && !Red(Beside(p).right)
    ensures Lacking(p.up, Above(p, s, p.red, Beside(p).(red := true)))
  {
    var w := Beside(p);
    var t := Above(p, s, p.red, w.(red := true));
    assert Rises(w.(red := true)) && NoRedRed(w.(red := true));
    assert Last(t) + 1 == Weight(p.red) + Last(w);
  }

  lemma SplicedSound(p: Spot, t: Shape)
    requires t.Fork? && t.left.Tip? && Foremost(p) && Sound(Filled(p, t))
    ensures Mends(Spliced(p, t, false))
  {
    var child := t.right;
    FitsFilled(p, t);
    FilledNoRed(p, t);
    FilledRoot(p, t);
    if t.red || child.Tip? {
      FitsFilled(p, child);
      FilledNoRed(p, child);
      FilledRoot(p, child);
    } else {
      assert Last(t) == Last(child) + 1;
      RestoredSound(p, child);
    }
  }

  lemma {:induction false} FindForemost(p: Spot, s: Shape)
    requires s.Fork? && Foremost(p)
    ensures Size(s) > 0 && Foremost(Find(p, s, 0).spot) && Find(p, s, 0).sub.left.Tip?
    ensures Filled(Find(p, s, 0).spot, Find(p, s, 0).sub) == Filled(p, s)
    decreases s
  {
    if s.left.Fork? { FindForemost(AtLeft(p, s.red, s.right), s.left); }
  }

  /** Removing the first order keeps it too, with a black sentinel staying black. */
  lemma CutFirstSound(c: Canvas)
    requires c.shape.Fork? && Sound(c.shape) && !c.nilRed
    ensures Size(c.shape) > 0 && Mends(Cut(c, 0))
  {
    FindForemost(Whole, c.shape);
    CutFinds(c, 0);
    var at := Find(Whole, c.shape, 0);
    SplicedSound(at.spot, at.sub);
  }

  // ---- Depth --------------------------------------------------------------------------------

  lemma {:induction false} FirstLeast(s: Shape)
    requires Rises(s)
    ensures First(s) <= Last(s)
    decreases s
  {
    if s.Fork? {
      FirstLeast(s.left);
      FirstLeast(s.right);
    }
  }

  lemma {:induction false} Pow2Grows(a: nat, b: nat)
    requires a <= b
    ensures 0 < Pow2(a) <= Pow2(b)
  {
    if a < b { Pow2Above(a, b); }
    else { Pow2Above(a, a + 1); }
  }

  /** With `k` black orders above the first free place there are at least 2^k - 1 orders. */
  lemma {:induction false} SizeBound(s: Shape)
    requires Rises(s)
    ensures Pow2(First(s)) <= Size(s) + 1
    decreases s
  {
    if s.Fork? {
      SizeBound(s.left);
      SizeBound(s.right);
      FirstLeast(s.left);
      Pow2Grows(First(s.left), First(s.right));
    }
  }

  lemma {:induction false} SpineBound(s: Shape)
    requires s.Fork? && NoRedRed(s)
    ensures LeftDepth(s) + 1 <= 2 * First(s) + if s.red then 1 else 0
    decreases s
  {
    if s.left.Fork? { SpineBound(s.left); }
  }

  /** The first order of such a tree with n orders lies less than 2 log2(n + 1) steps down. */
  lemma FirstWithinReach(s: Shape, b: nat)
    requires s.Fork? && Sound(s) && Size(s) + 1 < Pow2(b)
    ensures LeftDepth(s) + 1 < 2 * b
  {
    SizeBound(s);
    SpineBound(s);
    if b <= First(s) { Pow2Grows(b, First(s)); }
  }
}
