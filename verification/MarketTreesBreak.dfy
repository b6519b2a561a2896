/** A run of the engine that breaks a tree: thirteen sell orders and cancellations, not one trade. */
module MarketTreesBreak {
  import opened Orders
  import opened Priority
  import opened PriceLevels
  import opened Market
  import opened MarketBook
  import opened MarketIndex
  import opened MarketRuns
  import opened MarketSteps
  import C = Colours
  import RedBlack
  import B = BookRuns

  /** A new sell order at the price `p`, with `p` for its id, of the user 1. */
  function Offer(instrument: nat, p: nat): Ord {
    Ord(p, 1, instrument, Sell, Limit, p, 1, 0, 1, Pending, 0, 0)
  }

  /** The operations, by the ids they are about. */
  datatype Act = Put(p: nat) | Take(p: nat)

  const SCRIPT: seq<Act> := [Put(40), Put(30), Put(20), Put(10), Take(30), Put(80), Put(70), Put(60),
                             Take(40), Take(70), Put(90), Take(60), Take(80)]

  function OpOf(instrument: nat, a: Act): Op {
    match a case Put(p) => Place(Offer(instrument, p)) case Take(p) => CancelOne(p, 1)
  }

  function OpsOf(instrument: nat, acts: seq<Act>): (ops: seq<Op>)
    ensures |ops| == |acts| && forall i :: 0 <= i < |acts| ==> ops[i] == OpOf(instrument, acts[i])
  {
    seq(|acts|, i requires 0 <= i < |acts| => OpOf(instrument, acts[i]))
  }

  ghost predicate Distinctly(acts: seq<Act>) {
    && (forall i :: 0 <= i < |acts| ==> acts[i].p > 0)
    && (forall i, j :: 0 <= i < j < |acts| && acts[i].Put? && acts[j].Put? ==> acts[i].p != acts[j].p)
  }

  lemma NewActs(instrument: nat, acts: seq<Act>)
    requires Distinctly(acts)
    ensures NewOrders(OpsOf(instrument, acts))
  {
  }

  /** The queue holds orders of the user 1 with these ids, which are their prices. */
  ghost predicate Looks(q: seq<Ord>, ids: seq<nat>) {
    |q| == |ids| && forall i :: 0 <= i < |q| ==> q[i].id == ids[i] && q[i].price == ids[i] && q[i].user == 1
  }

  /** There are no bids, the offers are `ids`, and the steps `a` have coloured the tree of the offers like `c`. */
  ghost predicate Stage(s: State, a: seq<B.Step>, ids: seq<nat>, c: C.Canvas) {
    && s.bids.queue == [] && Looks(s.asks.queue, ids)
    && Leads(Sell, B.START, a, s.asks) && B.After(false, B.START, a).outcome == C.Kept(c)
  }

  ghost predicate Reached(w: World, acts: seq<Act>, ids: seq<nat>, c: C.Canvas) {
    var ops := OpsOf(w.instrument, acts);
    Distinctly(acts) && Stage(Run(w, ops), StepsOfRun(w, ops, Sell), ids, c)
  }

  lemma OneMore(instrument: nat, acts: seq<Act>, a: Act)
    ensures var ops := OpsOf(instrument, acts + [a]);
      ops == OpsOf(instrument, acts) + [OpOf(instrument, a)] && ops[..|ops| - 1] == OpsOf(instrument, acts)
  {
  }

  /** Placing a sell order when there are no bids. */
  lemma QuietPlace(w: World, s: State, p: nat)
    requires s.bids.queue == [] && p !in s.owned && p > 0
    ensures var o := Arrived(w, s, Offer(w.instrument, p));
      && Process(w, s, Offer(w.instrument, p)).bids.queue == []
      && Process(w, s, Offer(w.instrument, p)).asks == WithOrder(false, s.asks, o)
      && StepsOf(w, s, Place(Offer(w.instrument, p)), Sell) == [B.Enter(o)]
  {
  }

  /** The rank of a price among ascending prices. */
  lemma RankOfPrice(q: seq<Ord>, ids: seq<nat>, n: nat, k: Key)
    requires Looks(q, ids) && n <= |ids|
    requires (forall i :: 0 <= i < n ==> ids[i] < k.price) && forall i :: n <= i < |ids| ==> ids[i] > k.price
    ensures Position(false, OrdKeys(q), k) == n
  {
    PositionUnique(false, OrdKeys(q), k, n);
  }

  lemma EnterStage(s: State, a: seq<B.Step>, ids: seq<nat>, c: C.Canvas, s': State, o: Ord, n: nat)
    requires Stage(s, a, ids, c) && n <= |ids| && B.Possible(s.asks, B.Enter(o)) && o.user == 1 && o.id == o.price
    requires (forall i :: 0 <= i < n ==> ids[i] < o.price) && forall i :: n <= i < |ids| ==> ids[i] > o.price
    requires s'.bids.queue == [] && s'.asks == WithOrder(false, s.asks, o)
    ensures |ids| == C.Size(c.shape)
    ensures Stage(s', a + [B.Enter(o)], InsertAt(ids, n, o.id), C.Canvas(C.Grown(c.shape, n), c.nilRed))
  {
    var t := B.After(false, B.START, a);
    RankOfPrice(s.asks.queue, ids, n, Key(o.price, o.timestamp));
    Single(false, t, B.Enter(o));
    B.AfterConcat(false, B.START, a, [B.Enter(o)]);
  }

  lemma PutReaches(w: World, acts: seq<Act>, ids: seq<nat>, c: C.Canvas, p: nat, n: nat)
    requires NeverBackwards(w) && Reached(w, acts, ids, c) && Distinctly(acts + [Put(p)])
    requires n <= |ids| && (forall i :: 0 <= i < n ==> ids[i] < p) && forall i :: n <= i < |ids| ==> ids[i] > p
    ensures |ids| == C.Size(c.shape)
    ensures Reached(w, acts + [Put(p)], InsertAt(ids, n, p), C.Canvas(C.Grown(c.shape, n), c.nilRed))
  {
    var s := Run(w, OpsOf(w.instrument, acts));
    OneMore(w.instrument, acts, Put(p));
    assert (acts + [Put(p)])[|acts|] == Put(p);
    FreeToPut(w, acts, ids, p);
    QuietPlace(w, s, p);
    var o := Arrived(w, s, Offer(w.instrument, p));
    EnterStage(s, StepsOfRun(w, OpsOf(w.instrument, acts), Sell), ids, c, Process(w, s, Offer(w.instrument, p)), o, n);
  }

  /** A price nobody offers is an id nobody has. */
  lemma FreeToPut(w: World, acts: seq<Act>, ids: seq<nat>, p: nat)
    requires NeverBackwards(w) && Distinctly(acts) && p !in ids
    requires var s := Run(w, OpsOf(w.instrument, acts)); s.bids.queue == [] && Looks(s.asks.queue, ids)
    ensures var s := Run(w, OpsOf(w.instrument, acts)); p !in s.owned && !HasId(s.asks.queue, p)
  {
    NewActs(w.instrument, acts);
    RunHolds(w, OpsOf(w.instrument, acts));
  }

  lemma QuietCancel(s: State, p: nat, i: nat)
    requires s.bids.queue == [] && i < |s.asks.queue| && s.asks.queue[i].id == p && s.asks.queue[i].user == 1
    requires Distinct(s.asks.queue) && p in s.owned && s.asks.queue[i].Active()
    ensures IndexOf(s.asks.queue, p) == i
    ensures Cancel(s, p, 1).bids.queue == [] && Cancel(s, p, 1).asks == WithoutOrder(s.asks, i)
    ensures CancelSteps(s, p, 1, Sell) == [B.Leave(p)]
  {
    assert HasId(s.asks.queue, p);
    assert s.asks.queue[IndexOf(s.asks.queue, p)].id == p;
  }

  lemma FreeToTake(w: World, acts: seq<Act>, ids: seq<nat>, i: nat)
    requires NeverBackwards(w) && Distinctly(acts) && i < |ids|
    requires var s := Run(w, OpsOf(w.instrument, acts)); s.bids.queue == [] && Looks(s.asks.queue, ids)
    ensures var s := Run(w, OpsOf(w.instrument, acts));
      Distinct(s.asks.queue) && ids[i] in s.owned && s.asks.queue[i].Active()
  {
    var s := Run(w, OpsOf(w.instrument, acts));
    NewActs(w.instrument, acts);
    RunHolds(w, OpsOf(w.instrument, acts));
    assert HasId(s.asks.queue, ids[i]);
    assert QueueSound(s.asks.queue, Sell, s.sequence, w.clock(s.tick));
  }

  lemma LeaveStage(s: State, a: seq<B.Step>, ids: seq<nat>, c: C.Canvas, s': State, p: nat, i: nat)
    requires Stage(s, a, ids, c) && i < |ids| && HasId(s.asks.queue, p) && IndexOf(s.asks.queue, p) == i
    requires s'.bids.queue == [] && s'.asks == WithoutOrder(s.asks, i)
    ensures i < C.Size(c.shape)
    ensures var r := C.Cut(c, i); var b := a + [B.Leave(p)];
      && Leads(Sell, B.START, b, s'.asks) && B.After(false, B.START, b).outcome == r
      && (r.Kept? ==> Stage(s', b, Without(ids, i), r.canvas))
  {
    var t := B.After(false, B.START, a);
    Single(false, t, B.Leave(p));
    B.AfterConcat(false, B.START, a, [B.Leave(p)]);
    B.NextLeave(false, t, p);
  }

  lemma TakeReaches(w: World, acts: seq<Act>, ids: seq<nat>, c: C.Canvas, i: nat)
    requires NeverBackwards(w) && Reached(w, acts, ids, c) && i < |ids| && Distinctly(acts + [Take(ids[i])])
    ensures i < C.Size(c.shape)
    ensures C.Cut(c, i).Kept? ==> Reached(w, acts + [Take(ids[i])], Without(ids, i), C.Cut(c, i).canvas)
    ensures NewOrders(OpsOf(w.instrument, acts + [Take(ids[i])]))
    ensures Stands(w, OpsOf(w.instrument, acts + [Take(ids[i])]), Sell) <==> C.Cut(c, i).Kept?
  {
    var p, s := ids[i], Run(w, OpsOf(w.instrument, acts));
    OneMore(w.instrument, acts, Take(p));
    NewActs(w.instrument, acts + [Take(p)]);
    FreeToTake(w, acts, ids, i);
    QuietCancel(s, p, i);
    LeaveStage(s, StepsOfRun(w, OpsOf(w.instrument, acts), Sell), ids, c, Cancel(s, p, 1), p, i);
  }

  // ---- The colours of the run ---------------------------------------------------------------

  const TIP := C.Tip
  const RED_LEAF := C.Fork(TIP, true, TIP)
  const LEAF := C.Fork(TIP, false, TIP)
  const PAIR := C.Fork(RED_LEAF, false, TIP)
  const FOUR := C.Fork(PAIR, false, LEAF)
  /** The third of four offers gone, and with it the black of its path. */
  const THREE := C.Fork(PAIR, false, TIP)
  const CHAIN := C.Fork(THREE, false, TIP)

  function Black(s: C.Shape): C.Canvas { C.Canvas(s, false) }

  /** The offers after `k` acts, the colours of their tree, and the rank the next act is about. */
  datatype Scene = Scene(ids: seq<nat>, canvas: C.Canvas, rank: nat)

  function SceneAt(k: nat): Scene {
    match k
    case 0 => Scene([], Black(TIP), 0)
    case 1 => Scene([40], Black(LEAF), 0)
    case 2 => Scene([30, 40], Black(PAIR), 0)
    case 3 => Scene([20, 30, 40], Black(C.Fork(RED_LEAF, false, RED_LEAF)), 0)
    case 4 => Scene([10, 20, 30, 40], Black(FOUR), 2)
    case 5 => Scene([10, 20, 40], Black(THREE), 3)
    case 6 => Scene([10, 20, 40, 80], Black(C.Fork(PAIR, false, RED_LEAF)), 3)
    case 7 => Scene([10, 20, 40, 70, 80], Black(C.Fork(C.Fork(PAIR, true, TIP), false, RED_LEAF)), 3)
    case 8 => Scene([10, 20, 40, 60, 70, 80], Black(C.Fork(C.Fork(PAIR, false, RED_LEAF), false, LEAF)), 2)
    case 9 => Scene([10, 20, 60, 70, 80], Black(C.Fork(THREE, false, LEAF)), 3)
    case 10 => Scene([10, 20, 60, 80], Black(CHAIN), 4)
    case 11 => Scene([10, 20, 60, 80, 90], Black(C.Fork(THREE, false, RED_LEAF)), 2)
    case _ => Scene([10, 20, 80, 90], C.Canvas(CHAIN, true), 2)
  }

  /** The act leads from one scene to the next. */
  ghost predicate Turns(a: Act, s: Scene, s': Scene) {
    && |s.ids| == C.Size(s.canvas.shape)
    && match a
       case Put(p) =>
         && s.rank <= |s.ids| && s'.ids == s.ids[..s.rank] + [p] + s.ids[s.rank..]
         && (forall i :: 0 <= i < s.rank ==> s.ids[i] < p) && (forall i :: s.rank <= i < |s.ids| ==> s.ids[i] > p)
         && s'.canvas == C.Canvas(C.Grown(s.canvas.shape, s.rank), s.canvas.nilRed)
       case Take(p) =>
         && s.rank < |s.ids| && s.ids[s.rank] == p && s'.ids == s.ids[..s.rank] + s.ids[s.rank + 1..]
         && C.Cut(s.canvas, s.rank) == C.Kept(s'.canvas)
  }

  lemma FirstTurns()
    ensures Turns(Put(40), SceneAt(0), SceneAt(1)) && Turns(Put(30), SceneAt(1), SceneAt(2))
    ensures Turns(Put(20), SceneAt(2), SceneAt(3)) && Turns(Put(10), SceneAt(3), SceneAt(4))
  {
  }

  lemma SecondTurns()
    ensures Turns(Take(30), SceneAt(4), SceneAt(5)) && Turns(Put(80), SceneAt(5), SceneAt(6))
    ensures Turns(Put(70), SceneAt(6), SceneAt(7))
  {
  }

  lemma EighthTurn()
    ensures Turns(Put(60), SceneAt(7), SceneAt(8))
  {
  }

  lemma NinthTurn()
    ensures Turns(Take(40), SceneAt(8), SceneAt(9))
  {
  }

  lemma TenthTurn()
    ensures Turns(Take(70), SceneAt(9), SceneAt(10))
  {
  }

  lemma EleventhTurn()
    ensures Turns(Put(90), SceneAt(10), SceneAt(11))
  {
  }

  lemma TwelfthTurn()
    ensures Turns(Take(60), SceneAt(11), SceneAt(12))
  {
  }

  /** The first cancellation leaves a tree of three that is not red-black. */
  lemma Unbalances()
    ensures RedBlack.RedBlackShape(SceneAt(4).canvas.shape) && !RedBlack.RedBlackShape(SceneAt(5).canvas.shape)
    ensures !RedBlack.KeepsRedBlack(SceneAt(4).canvas.shape, 2)
  {
  }

  /** The last one would rotate around the sentinel, which the one before it painted red. */
  lemma Breaks()
    ensures C.Cut(SceneAt(12).canvas, 2) == C.Broken && SceneAt(12).canvas.nilRed && !SceneAt(11).canvas.nilRed
  {
  }

  // ---- The run ------------------------------------------------------------------------------

  /** The script, act by act. */
  ghost predicate Scripted(acts: seq<Act>) {
    && |acts| == 13 && acts[0] == Put(40) && acts[1] == Put(30) && acts[2] == Put(20) && acts[3] == Put(10)
    && acts[4] == Take(30) && acts[5] == Put(80) && acts[6] == Put(70) && acts[7] == Put(60)
    && acts[8] == Take(40) && acts[9] == Take(70) && acts[10] == Put(90) && acts[11] == Take(60) && acts[12] == Take(80)
  }

  lemma ScriptDistinctly(acts: seq<Act>, k: nat)
    requires Scripted(acts) && k <= |acts|
    ensures Distinctly(acts[..k])
  {
  }

  lemma TurnsAt(acts: seq<Act>, k: nat)
    requires Scripted(acts) && k < 12
    ensures Turns(acts[k], SceneAt(k), SceneAt(k + 1))
  {
    if k < 4 { FirstTurns(); }
    if 4 <= k < 7 { SecondTurns(); }
    if k == 7 { EighthTurn(); }
    if k == 8 { NinthTurn(); }
    if k == 9 { TenthTurn(); }
    if k == 10 { EleventhTurn(); }
    if k == 11 { TwelfthTurn(); }
  }

  /** One act more takes the state to the next scene. */
  lemma NextScene(w: World, acts: seq<Act>, a: Act, more: seq<Act>, s: Scene, s': Scene)
    requires NeverBackwards(w) && more == acts + [a] && Distinctly(more) && Turns(a, s, s')
    requires Reached(w, acts, s.ids, s.canvas)
    ensures Reached(w, more, s'.ids, s'.canvas)
  {
    match a
    case Put(p) => PutReaches(w, acts, s.ids, s.canvas, p, s.rank);
    case Take(p) => TakeReaches(w, acts, s.ids, s.canvas, s.rank);
  }

  lemma NothingReached(w: World)
    ensures Reached(w, [], [], Black(C.Tip))
  {
  }

  /** Scenes that lead from one to the next are the states of the market and the colours of its tree. */
  lemma {:induction false} ScenesReached(w: World, acts: seq<Act>, scenes: seq<Scene>, k: nat)
    requires NeverBackwards(w) && Distinctly(acts) && k <= |acts| && k < |scenes|
    requires scenes[0].ids == [] && scenes[0].canvas == Black(C.Tip)
    requires forall i :: 0 <= i < k ==> Turns(acts[i], scenes[i], scenes[i + 1])
    ensures Reached(w, acts[..k], scenes[k].ids, scenes[k].canvas)
  {
    if k == 0 {
      NothingReached(w);
      assert acts[..0] == [];
    } else {
      ScenesReached(w, acts, scenes, k - 1);
      assert Distinctly(acts[..k]);
      NextScene(w, acts[..k - 1], acts[k - 1], acts[..k], scenes[k - 1], scenes[k]);
    }
  }

  lemma ScriptReaches(w: World, acts: seq<Act>, k: nat)
    requires NeverBackwards(w) && Scripted(acts) && k <= 12
    ensures Reached(w, acts[..k], SceneAt(k).ids, SceneAt(k).canvas)
  {
    var scenes := seq(13, (i: nat) => SceneAt(i));
    ScriptDistinctly(acts, 13);
    assert acts[..13] == acts;
    forall i | 0 <= i < 12 ensures Turns(acts[i], scenes[i], scenes[i + 1]) {
      TurnsAt(acts, i);
    }
    ScenesReached(w, acts, scenes, k);
  }

  /** Whatever the clock: the first four orders of the script make a red-black tree, and cancelling the order at 30
      leaves one that is not. */
  lemma BalanceLost(w: World, acts: seq<Act>)
    requires NeverBackwards(w) && Scripted(acts)
    ensures NewOrders(OpsOf(w.instrument, acts[..4])) && NewOrders(OpsOf(w.instrument, acts[..5]))
    ensures var out := Colouring(w, OpsOf(w.instrument, acts[..4]), Sell);
      out.Kept? && RedBlack.RedBlackShape(out.canvas.shape)
    ensures var out := Colouring(w, OpsOf(w.instrument, acts[..5]), Sell);
      out.Kept? && !RedBlack.RedBlackShape(out.canvas.shape)
  {
    ColouredAt(w, acts, 4);
    ColouredAt(w, acts, 5);
    Unbalances();
  }

  lemma ColouredAt(w: World, acts: seq<Act>, k: nat)
    requires NeverBackwards(w) && Scripted(acts) && k <= 12
    ensures NewOrders(OpsOf(w.instrument, acts[..k]))
    ensures Colouring(w, OpsOf(w.instrument, acts[..k]), Sell) == C.Kept(SceneAt(k).canvas)
  {
    ScriptReaches(w, acts, k);
    NewActs(w.instrument, acts[..k]);
  }

  /** Whatever the clock: the tree of the offers stands until the last cancellation, which rotates around the
      sentinel while three other offers are in the book. */
  lemma ScriptBreaks(w: World, acts: seq<Act>)
    requires NeverBackwards(w) && Scripted(acts)
    ensures var ops := OpsOf(w.instrument, acts); NewOrders(ops) && !Stands(w, ops, Sell)
    ensures var ops := OpsOf(w.instrument, acts[..12]);
      NewOrders(ops) && Stands(w, ops, Sell) && Looks(Run(w, ops).asks.queue, [10, 20, 80, 90])
  {
    ScriptReaches(w, acts, 12);
    Breaks();
    ScriptDistinctly(acts, 13);
    ScriptDistinctly(acts, 12);
    assert acts[..13] == acts == acts[..12] + [acts[12]];
    TakeReaches(w, acts[..12], [10, 20, 80, 90], C.Canvas(CHAIN, true), 2);
    NewActs(w.instrument, acts[..12]);
  }

  lemma ScriptIs()
    ensures Scripted(SCRIPT)
  {
  }

  /** So there is a run of sell orders and cancellations that the trees do not get through. */
  lemma SomeRunBreaks(w: World) returns (ops: seq<Op>)
    requires NeverBackwards(w)
    ensures NewOrders(ops) && |ops| == 13 && !Stands(w, ops, Sell)
    ensures forall i :: 0 <= i < |ops| ==> if ops[i].Place? then ops[i].order.side.Sell? else ops[i].CancelOne?
  {
    ScriptIs();
    ScriptBreaks(w, SCRIPT);
    ops := OpsOf(w.instrument, SCRIPT);
  }
}
