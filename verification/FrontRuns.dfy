/** Steps in which nobody leaves but the first of the queue: the tree takes them all. */
module FrontRuns {
  import opened Orders
  import opened Market
  import opened BookRuns
  import RedBlack
  import Rising

  /** Whoever leaves stands first. */
  predicate FrontOnly(buy: bool, s: Picture, steps: seq<Step>)
    requires Sized(s) && Runs(buy, s, steps)
    decreases |steps|
  {
    steps == [] || (FromFront(s.half, steps[0]) && FrontOnly(buy, Next(buy, s, steps[0]), steps[1..]))
  }

  predicate FromFront(h: Half, a: Step)
    requires Possible(h, a)
  {
    a.Leave? ==> IndexOf(h.queue, a.id) == 0
  }

  lemma {:induction false} FrontOnlyConcat(buy: bool, s: Picture, a: seq<Step>, b: seq<Step>)
    requires Sized(s) && Runs(buy, s, a) && Runs(buy, After(buy, s, a), b)
    requires FrontOnly(buy, s, a) && FrontOnly(buy, After(buy, s, a), b)
    ensures Runs(buy, s, a + b) && FrontOnly(buy, s, a + b)
    decreases |a|
  {
    AfterConcat(buy, s, a, b);
    if a == [] {
      assert a + b == b;
    } else {
      assert (a + b)[1..] == a[1..] + b;
      FrontOnlyConcat(buy, Next(buy, s, a[0]), a[1..], b);
    }
  }

  /** How many orders enter. */
  function Entries(steps: seq<Step>): nat {
    if steps == [] then 0 else (if steps[0].Enter? then 1 else 0) + Entries(steps[1..])
  }

  lemma {:induction false} NobodyCounts(steps: seq<Step>)
    requires NoEntry(steps)
    ensures Entries(steps) == 0
  {
    if steps != [] { NobodyCounts(steps[1..]); }
  }

  lemma {:induction false} EntriesConcat(a: seq<Step>, b: seq<Step>)
    ensures Entries(a + b) == Entries(a) + Entries(b)
  {
    if a == [] {
      assert a + b == b;
    } else {
      assert (a + b)[1..] == a[1..] + b;
      EntriesConcat(a[1..], b);
    }
  }

  /** The colours are known, the sentinel is black, and black depths rise. */
  predicate Upright(s: Picture) {
    s.outcome.Kept? && !s.outcome.canvas.nilRed && Rising.Sound(s.outcome.canvas.shape)
  }

  lemma EnterUpright(buy: bool, s: Picture, o: Ord)
    requires Sized(s) && Possible(s.half, Enter(o)) && Upright(s)
    ensures Upright(Next(buy, s, Enter(o))) && |Next(buy, s, Enter(o)).half.queue| == |s.half.queue| + 1
  {
    Rising.GrownSound(s.outcome.canvas.shape, PlaceOf(buy, s.half, o));
  }

  lemma TradeUpright(buy: bool, s: Picture, q: int)
    requires Sized(s) && Possible(s.half, TradeFront(q)) && Upright(s) && |s.half.queue| + 1 < RedBlack.Pow2(500)
    ensures Upright(Next(buy, s, TradeFront(q))) && |Next(buy, s, TradeFront(q)).half.queue| == |s.half.queue|
  {
    Rising.FirstWithinReach(s.outcome.canvas.shape, 500);
    NextTrade(buy, s, q);
  }

  lemma LeaveUpright(buy: bool, s: Picture, id: nat)
    requires Sized(s) && Possible(s.half, Leave(id)) && Upright(s) && FromFront(s.half, Leave(id))
    ensures Upright(Next(buy, s, Leave(id))) && |Next(buy, s, Leave(id)).half.queue| + 1 == |s.half.queue|
  {
    NextLeave(buy, s, id);
    Rising.CutFirstSound(s.outcome.canvas);
  }

  lemma NextUpright(buy: bool, s: Picture, a: Step)
    requires Sized(s) && Possible(s.half, a) && Upright(s) && FromFront(s.half, a)
    requires |s.half.queue| + 1 < RedBlack.Pow2(500)
    ensures Upright(Next(buy, s, a))
    ensures |Next(buy, s, a).half.queue| <= |s.half.queue| + if a.Enter? then 1 else 0
  {
    match a
    case Enter(o) => EnterUpright(buy, s, o);
    case TradeFront(q) => TradeUpright(buy, s, q);
    case Leave(id) => LeaveUpright(buy, s, id);
    case Resize(id, q) => NextResize(buy, s, id, q);
  }

  /** However many orders enter, short of 2^500: as long as nobody leaves but the first, the colours stay known,
      the sentinel stays black, and the front is always in reach. */
  lemma {:induction false} FrontOnlyStands(buy: bool, s: Picture, steps: seq<Step>)
    requires Sized(s) && Runs(buy, s, steps) && FrontOnly(buy, s, steps) && Upright(s)
    requires |s.half.queue| + Entries(steps) + 1 < RedBlack.Pow2(500)
    ensures Upright(After(buy, s, steps))
    decreases |steps|
  {
    if steps != [] {
      NextUpright(buy, s, steps[0]);
      FrontOnlyStands(buy, Next(buy, s, steps[0]), steps[1..]);
    }
  }

  lemma StartUpright()
    ensures Upright(START)
  {
  }
}
