/** What happens to the shape and the colours of the tree, whoever sits in it. An insertion is determined
    by the rank of the newcomer, a removal by the rank of the order that leaves; both are functions here. */
module Colours {

  datatype Shape = Tip | Fork(left: Shape, red: bool, right: Shape)

  /** A shape with a hole. */
  datatype Spot =
    | Whole
    | AtLeft(up: Spot, red: bool, right: Shape)
    | AtRight(left: Shape, red: bool, up: Spot)

  function Filled(p: Spot, s: Shape): Shape
    decreases p
  {
    match p
    case Whole => s
    case AtLeft(up, red, r) => Filled(up, Fork(s, red, r))
    case AtRight(l, red, up) => Filled(up, Fork(l, red, s))
  }

  function Size(s: Shape): nat { if s.Tip? then 0 else Size(s.left) + 1 + Size(s.right) }

  /** How many orders stand ahead of the hole. */
  function Ahead(p: Spot): nat {
    match p
    case Whole => 0
    case AtLeft(up, _, _) => Ahead(up)
    case AtRight(l, _, up) => Ahead(up) + Size(l) + 1
  }

  function Behind(p: Spot): nat {
    match p
    case Whole => 0
    case AtLeft(up, _, r) => 1 + Size(r) + Behind(up)
    case AtRight(_, _, up) => Behind(up)
  }

  function Depth(p: Spot): nat { if p.Whole? then 0 else 1 + Depth(p.up) }

  predicate Red(s: Shape) { s.Fork? && s.red }
  function Blackened(s: Shape): Shape { if s.Tip? then s else s.(red := false) }

  function Beside(p: Spot): Shape
    requires !p.Whole?
  {
    if p.AtLeft? then p.right else p.left
  }

  /** The subtree above the hole, in a given colour and with `w` beside it. */
  function Above(p: Spot, s: Shape, red: bool, w: Shape): Shape
    requires !p.Whole?
  {
    if p.AtLeft? then Fork(s, red, w) else Fork(w, red, s)
  }

  // ---- Insertion --------------------------------------------------------------------------

  /** The free place with `n` orders ahead of it. */
  function Free(p: Spot, s: Shape, n: nat): Spot
    requires n <= Size(s)
    decreases s
  {
    if s.Tip? then p
    else if n <= Size(s.left) then Free(AtLeft(p, s.red, s.right), s.left, n)
    else Free(AtRight(s.left, s.red, p), s.right, n - Size(s.left) - 1)
  }

  /** The grandparent's subtree after the rotations: the red pair hangs below a black top. */
  function Lifted(p: Spot, s: Shape): Shape
    requires !p.Whole? && !p.up.Whole? && s.Fork?
  {
    var u := Beside(p.up);
    if p.up.AtLeft? then
      if p.AtLeft? then Fork(s, false, Fork(p.right, true, u))
      else Fork(Fork(p.left, true, s.left), false, Fork(s.right, true, u))
    else
      if p.AtRight? then Fork(Fork(u, true, p.left), false, s)
      else Fork(Fork(u, true, s.left), false, Fork(s.right, true, p.right))
  }

  /** The shape after the insertion fix-up of the red `s`. */
  function Mended(p: Spot, s: Shape): Shape
    requires s.Fork?
    decreases p
  {
    if p.Whole? || !p.red || p.up.Whole? then Blackened(Filled(p, s))
    else
      var u := Beside(p.up);
      if Red(u) then Mended(p.up.up, Above(p.up, Above(p, s, false, Beside(p)), true, Blackened(u)))
      else Blackened(Filled(p.up.up, Lifted(p, s)))
  }

  const NEWCOMER := Fork(Tip, true, Tip)

  function Grown(s: Shape, n: nat): Shape
    requires n <= Size(s)
  {
    Mended(Free(Whole, s, n), NEWCOMER)
  }

  // ---- Removal ----------------------------------------------------------------------------

  /** The shape, and whether the sentinel has been painted red. */
  datatype Canvas = Canvas(shape: Shape, nilRed: bool)
  datatype Outcome = Kept(canvas: Canvas) | Broken

  datatype Place = Place(spot: Spot, sub: Shape)

  /** The subtree whose root has the rank `i`. */
  function Find(p: Spot, s: Shape, i: nat): (q: Place)
    requires i < Size(s)
    ensures q.sub.Fork?
    decreases s
  {
    var n := Size(s.left);
    if i < n then Find(AtLeft(p, s.red, s.right), s.left, i)
    else if i == n then Place(p, s)
    else Find(AtRight(s.left, s.red, p), s.right, i - n - 1)
  }

  /** The colour a child pointer shows: a missing child has the sentinel's. */
  predicate Shows(s: Shape, nilRed: bool) { if s.Tip? then nilRed else s.red }

  /** The sibling's child on the near side of the hole, and the one on the far side. */
  function Inner(p: Spot, w: Shape): Shape
    requires !p.Whole? && w.Fork?
  {
    if p.AtLeft? then w.left else w.right
  }

  function Outer(p: Spot, w: Shape): Shape
    requires !p.Whole? && w.Fork?
  {
    if p.AtLeft? then w.right else w.left
  }

  /** The hole after its red sibling was rotated above the parent. */
  function Lowered(p: Spot): Spot
    requires !p.Whole? && Beside(p).Fork?
  {
    var w := Beside(p);
    if p.AtLeft? then AtLeft(AtLeft(p.up, false, w.right), true, w.left)
    else AtRight(w.right, true, AtRight(w.left, false, p.up))
  }

  /** The sibling after its inner child was rotated above it. */
  function TurnedOut(p: Spot, w: Shape): Shape
    requires !p.Whole? && w.Fork? && Inner(p, w).Fork?
  {
    var i := Inner(p, w);
    if p.AtLeft? then Fork(i.left, false, Fork(i.right, true, w.right))
    else Fork(Fork(w.left, true, i.left), false, i.right)
  }

  /** The parent's subtree after the sibling `w` was rotated above it. */
  function Raised(p: Spot, s: Shape, w: Shape): Shape
    requires !p.Whole? && w.Fork?
  {
    if p.AtLeft? then Fork(Fork(s, false, w.left), p.red, Blackened(w.right))
    else Fork(Blackened(w.left), p.red, Fork(w.right, false, s))
  }

  /** The removal fix-up of the subtree `s`, one black order short. It breaks the tree where it would
      rotate around the sentinel: beside a missing sibling once the sentinel is red, and when it takes
      the red sentinel for the sibling's inner child. */
  function Restored(p: Spot, s: Shape, nilRed: bool): Outcome
    requires s.Fork?
    decreases if p.Whole? || s.red then 0 else 1 + Depth(p), 1
  {
    if p.Whole? || s.red then Kept(Canvas(Filled(p, Blackened(s)), nilRed))
    else Levelled(if Red(Beside(p)) then Lowered(p) else p, s, nilRed)
  }

  /** The rest of a turn, once a red sibling is out of the way. */
  function Levelled(p: Spot, s: Shape, nilRed: bool): Outcome
    requires s.Fork? && !p.Whole?
    decreases if p.red then 1 else 1 + Depth(p), 0
  {
    var w := Beside(p);
    if w.Tip? then
      if nilRed then Broken else Restored(p.up, Above(p, s, p.red, w), true)
    else if !Shows(w.left, nilRed) && !Shows(w.right, nilRed) then
      Restored(p.up, Above(p, s, p.red, w.(red := true)), nilRed)
    else if Shows(Outer(p, w), nilRed) then
      Kept(Canvas(Blackened(Filled(p.up, Raised(p, s, w))), nilRed && Outer(p, w).Fork?))
    else if Inner(p, w).Tip? then Broken
    else Kept(Canvas(Blackened(Filled(p.up, Raised(p, s, TurnedOut(p, w)))), nilRed))
  }

  /** An order with at most one child leaves its place to that child. */
  function Spliced(p: Spot, t: Shape, nilRed: bool): Outcome
    requires t.Fork?
  {
    var child := if t.left.Tip? then t.right else t.left;
    if t.red || child.Tip? then Kept(Canvas(Filled(p, child), nilRed)) else Restored(p, child, nilRed)
  }

  /** A removal: an order with two children takes over from its successor, which leaves instead. */
  function Cut(c: Canvas, i: nat): Outcome
    requires i < Size(c.shape)
  {
    var at := Find(Whole, c.shape, i);
    if at.sub.left.Tip? || at.sub.right.Tip? then Spliced(at.spot, at.sub, c.nilRed)
    else
      FindSize(Whole, c.shape, i);
      var next := Find(Whole, c.shape, i + 1);
      Spliced(next.spot, next.sub, c.nilRed)
  }

  // ---- Places and ranks -------------------------------------------------------------------

  lemma {:induction false} FilledSize(p: Spot, s: Shape)
    ensures Size(Filled(p, s)) == Ahead(p) + Size(s) + Behind(p)
    decreases p
  {
    match p
    case Whole =>
    case AtLeft(up, red, r) => FilledSize(up, Fork(s, red, r));
    case AtRight(l, red, up) => FilledSize(up, Fork(l, red, s));
  }

  lemma {:induction false} FindSize(p: Spot, s: Shape, i: nat)
    requires i < Size(s)
    ensures var q := Find(p, s, i);
      Filled(q.spot, q.sub) == Filled(p, s) && Ahead(q.spot) + Size(q.sub.left) == Ahead(p) + i
    ensures Find(p, s, i).sub.right.Fork? ==> i + 1 < Size(s)
    decreases s
  {
    var n := Size(s.left);
    if i < n { FindSize(AtLeft(p, s.red, s.right), s.left, i); }
    if i > n { FindSize(AtRight(s.left, s.red, p), s.right, i - n - 1); }
  }

  /** One level up. */
  lemma {:induction false} Climb(p: Spot, s: Shape)
    requires !p.Whole?
    ensures var t := Above(p, s, p.red, Beside(p));
      && Filled(p, s) == Filled(p.up, t) && Size(t) == Size(s) + 1 + Size(Beside(p))
      && Ahead(p) == Ahead(p.up) + if p.AtLeft? then 0 else Size(Beside(p)) + 1
  {
  }

  /** One step of the descent. */
  lemma {:induction false} FindStep(p: Spot, s: Shape, i: nat)
    requires i < Size(s)
    ensures i < Size(s.left) ==> Find(p, s, i) == Find(AtLeft(p, s.red, s.right), s.left, i)
    ensures i == Size(s.left) ==> Find(p, s, i) == Place(p, s)
    ensures i > Size(s.left) ==> Find(p, s, i) == Find(AtRight(s.left, s.red, p), s.right, i - Size(s.left) - 1)
  {
  }

  /** A place is determined by its rank. */
  lemma {:induction false} FindPlace(p: Spot, s: Shape)
    requires s.Fork?
    ensures Ahead(p) + Size(s.left) < Size(Filled(p, s))
    ensures Find(Whole, Filled(p, s), Ahead(p) + Size(s.left)) == Place(p, s)
  {
    FindStep(p, s, Size(s.left));
    FindFrom(p, s, Size(s.left));
  }

  lemma {:induction false} FindFrom(p: Spot, s: Shape, i: nat)
    requires i < Size(s)
    ensures Ahead(p) + i < Size(Filled(p, s))
    ensures Find(Whole, Filled(p, s), Ahead(p) + i) == Find(p, s, i)
    decreases p
  {
    if !p.Whole? {
      var t, n := Above(p, s, p.red, Beside(p)), if p.AtLeft? then i else Size(p.left) + 1 + i;
      Climb(p, s);
      FindFrom(p.up, t, n);
      FindStep(p.up, t, n);
    }
  }

  /** What leaves is found at its rank, or, with two children, right behind. */
  lemma CutFinds(c: Canvas, i: nat)
    requires i < Size(c.shape)
    ensures var at := Find(Whole, c.shape, i);
      if at.sub.left.Tip? || at.sub.right.Tip? then Cut(c, i) == Spliced(at.spot, at.sub, c.nilRed)
      else
        && i + 1 < Size(c.shape)
        && var next := Find(Whole, c.shape, i + 1);
        Cut(c, i) == Spliced(next.spot, next.sub, c.nilRed)
  {
    FindSize(Whole, c.shape, i);
  }

  /** One step of the descent. */
  lemma {:induction false} FreeStep(p: Spot, s: Shape, n: nat)
    requires s.Fork? && n <= Size(s)
    ensures n <= Size(s.left) ==> Free(p, s, n) == Free(AtLeft(p, s.red, s.right), s.left, n)
    ensures n > Size(s.left) ==> Free(p, s, n) == Free(AtRight(s.left, s.red, p), s.right, n - Size(s.left) - 1)
  {
  }

  lemma {:induction false} FreeFrom(p: Spot, s: Shape, n: nat)
    requires n <= Size(s)
    ensures Ahead(p) + n <= Size(Filled(p, s))
    ensures Free(Whole, Filled(p, s), Ahead(p) + n) == Free(p, s, n)
    decreases p
  {
    if !p.Whole? {
      var t, m := Above(p, s, p.red, Beside(p)), if p.AtLeft? then n else Size(p.left) + 1 + n;
      Climb(p, s);
      FreeFrom(p.up, t, m);
      FreeStep(p.up, t, m);
    }
  }

  /** A free place is determined by its rank. */
  lemma {:induction false} FreePlace(p: Spot)
    ensures Ahead(p) <= Size(Filled(p, Tip)) && Free(Whole, Filled(p, Tip), Ahead(p)) == p
  {
    FreeFrom(p, Tip, 0);
  }

  lemma {:induction false} FreeFills(p: Spot, s: Shape, n: nat)
    requires n <= Size(s)
    ensures Filled(Free(p, s, n), Tip) == Filled(p, s)
    decreases s
  {
    if s.Fork? {
      FreeStep(p, s, n);
      if n <= Size(s.left) { FreeFills(AtLeft(p, s.red, s.right), s.left, n); }
      else { FreeFills(AtRight(s.left, s.red, p), s.right, n - Size(s.left) - 1); }
    }
  }

  lemma {:induction false} MendedSize(p: Spot, s: Shape)
    requires s.Fork?
    ensures Size(Mended(p, s)) == Size(Filled(p, s)) && !Red(Mended(p, s))
    decreases p
  {
    if !p.Whole? && p.red && !p.up.Whole? {
      var u := Beside(p.up);
      FilledSize(p, s);
      if Red(u) {
        var t := Above(p.up, Above(p, s, false, Beside(p)), true, Blackened(u));
        MendedSize(p.up.up, t);
        FilledSize(p.up.up, t);
      } else {
        FilledSize(p.up.up, Lifted(p, s));
      }
    }
  }

  /** Whoever comes right behind an order with a right child has no left child. */
  lemma NextHasNoLeft(s: Shape, i: nat)
    requires i < Size(s) && Find(Whole, s, i).sub.right.Fork?
    ensures i + 1 < Size(s) && Find(Whole, s, i + 1).sub.left.Tip?
  {
    FindSize(Whole, s, i);
    var at := Find(Whole, s, i);
    var q := AtRight(at.sub.left, at.sub.red, at.spot);
    FindFrom(q, at.sub.right, 0);
    FirstHasNoLeft(q, at.sub.right);
  }

  lemma {:induction false} FirstHasNoLeft(p: Spot, s: Shape)
    requires s.Fork?
    ensures Find(p, s, 0).sub.left.Tip?
    decreases s
  {
    if s.left.Fork? { FirstHasNoLeft(AtLeft(p, s.red, s.right), s.left); }
  }

  /** How many steps to the left the first order lies. */
  function LeftDepth(s: Shape): nat { if s.Tip? || s.left.Tip? then 0 else 1 + LeftDepth(s.left) }

  // ---- Sizes ------------------------------------------------------------------------------

  lemma GrownSize(s: Shape, n: nat)
    requires n <= Size(s)
    ensures Size(Grown(s, n)) == Size(s) + 1
  {
    var p := Free(Whole, s, n);
    FreeFills(Whole, s, n);
    MendedSize(p, NEWCOMER);
    FilledSize(p, Tip);
    FilledSize(p, NEWCOMER);
  }

  lemma {:induction false} RestoredSize(p: Spot, s: Shape, nilRed: bool)
    requires s.Fork?
    ensures var r := Restored(p, s, nilRed); r.Kept? ==> Size(r.canvas.shape) == Size(Filled(p, s))
    decreases if p.Whole? || s.red then 0 else 1 + Depth(p), 1
  {
    FilledSize(p, s);
    FilledSize(p, Blackened(s));
    if !(p.Whole? || s.red) {
      var q := if Red(Beside(p)) then Lowered(p) else p;
      FilledSize(q, s);
      LevelledSize(q, s, nilRed);
    }
  }

  lemma RaisedSize(p: Spot, s: Shape, w: Shape)
    requires !p.Whole? && w.Fork?
    ensures Size(Blackened(Filled(p.up, Raised(p, s, w)))) == Ahead(p.up) + Size(s) + 1 + Size(w) + Behind(p.up)
  {
    FilledSize(p.up, Raised(p, s, w));
    assert Size(Blackened(w.left)) == Size(w.left) && Size(Blackened(w.right)) == Size(w.right);
  }

  lemma {:induction false} LevelledSize(p: Spot, s: Shape, nilRed: bool)
    requires s.Fork? && !p.Whole?
    ensures var r := Levelled(p, s, nilRed); r.Kept? ==> Size(r.canvas.shape) == Size(Filled(p, s))
    decreases if p.red then 1 else 1 + Depth(p), 0
  {
    var w := Beside(p);
    FilledSize(p, s);
    if w.Tip? {
      FilledSize(p.up, Above(p, s, p.red, w));
      if !nilRed { RestoredSize(p.up, Above(p, s, p.red, w), true); }
    } else if !Shows(w.left, nilRed) && !Shows(w.right, nilRed) {
      var t := Above(p, s, p.red, w.(red := true));
      FilledSize(p.up, t);
      RestoredSize(p.up, t, nilRed);
    } else {
      RaisedSize(p, s, w);
      if Inner(p, w).Fork? { RaisedSize(p, s, TurnedOut(p, w)); }
    }
  }

  lemma SplicedSize(p: Spot, t: Shape, nilRed: bool)
    requires t.Fork? && (t.left.Tip? || t.right.Tip?)
    ensures var r := Spliced(p, t, nilRed); r.Kept? ==> Size(r.canvas.shape) + 1 == Size(Filled(p, t))
  {
    var child := if t.left.Tip? then t.right else t.left;
    FilledSize(p, t);
    FilledSize(p, child);
    if child.Fork? { RestoredSize(p, child, nilRed); }
  }

  lemma CutSize(c: Canvas, i: nat)
    requires i < Size(c.shape)
    ensures Cut(c, i).Kept? ==> Size(Cut(c, i).canvas.shape) + 1 == Size(c.shape)
  {
    FindSize(Whole, c.shape, i);
    var at := Find(Whole, c.shape, i);
    if at.sub.left.Tip? || at.sub.right.Tip? {
      SplicedSize(at.spot, at.sub, c.nilRed);
    } else {
      FindSize(Whole, c.shape, i + 1);
      NextHasNoLeft(c.shape, i);
      var next := Find(Whole, c.shape, i + 1);
      SplicedSize(next.spot, next.sub, c.nilRed);
    }
  }

  // ---- Where the trouble starts ---------------------------------------------------------------

  /** The removal fix-up comes to a missing sibling: it climbs past black parents whose sibling is black and
      has no red child, and then the sibling, or what takes its place once it was lowered, is not there. */
  predicate MissesSibling(p: Spot)
    decreases p
  {
    !p.Whole? &&
      (var w := if Red(Beside(p)) then Beside(Lowered(p)) else Beside(p);
       w.Tip? || (!Red(Beside(p)) && !Red(w.left) && !Red(w.right) && !p.red && MissesSibling(p.up)))
  }

  /** While the sentinel is black, a fix-up that comes to no missing sibling goes through and leaves it black. */
  lemma {:induction false} NoSiblingMissed(p: Spot, s: Shape)
    requires s.Fork? && (s.red || !MissesSibling(p))
    ensures Restored(p, s, false).Kept? && !Restored(p, s, false).canvas.nilRed
    decreases p
  {
    if !p.Whole? && !s.red {
      var q := if Red(Beside(p)) then Lowered(p) else p;
      var w := Beside(q);
      assert w.Fork? && Restored(p, s, false) == Levelled(q, s, false);
      if !Red(w.left) && !Red(w.right) {
        var t := Above(q, s, q.red, w.(red := true));
        assert Levelled(q, s, false) == Restored(q.up, t, false);
        if t.red {
          assert Restored(q.up, t, false).Kept?;
        } else {
          assert q == p;
          NoSiblingMissed(p.up, t);
        }
      } else if Red(Outer(q, w)) {
        assert Levelled(q, s, false).Kept?;
      } else {
        assert Inner(q, w).Fork?;
      }
    }
  }

  /** The order of the rank `i`, or the one behind it, leaves a black place to a black child whose fix-up
      comes to a missing sibling. */
  predicate RemovalMissesSibling(s: Shape, i: nat)
    requires i < Size(s)
  {
    FindSize(Whole, s, i);
    var at := Find(Whole, s, i);
    var v := if at.sub.left.Tip? || at.sub.right.Tip? then at else Find(Whole, s, i + 1);
    var child := if v.sub.left.Tip? then v.sub.right else v.sub.left;
    !v.sub.red && child.Fork? && !child.red && MissesSibling(v.spot)
  }

  /** So trouble starts only there. */
  lemma NoRemovalMisses(s: Shape, i: nat)
    requires i < Size(s) && !RemovalMissesSibling(s, i)
    ensures Cut(Canvas(s, false), i).Kept? && !Cut(Canvas(s, false), i).canvas.nilRed
  {
    FindSize(Whole, s, i);
    var at := Find(Whole, s, i);
    var v := if at.sub.left.Tip? || at.sub.right.Tip? then at else Find(Whole, s, i + 1);
    var child := if v.sub.left.Tip? then v.sub.right else v.sub.left;
    if !v.sub.red && child.Fork? { NoSiblingMissed(v.spot, child); }
  }
}
