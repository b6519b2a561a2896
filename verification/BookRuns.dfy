/** One side of the book under a sequence of insertions, trades and removals: the red-black tree and its
    lists, with the values they show, against the queue they stand for. */
module BookRuns {
  import opened Orders
  import opened Priority
  import opened PriceLevels
  import opened BookViews
  import opened Market
  import opened TreeColours
  import opened OrderBook
  import Colours

  /** What is done to one side of the book: an order enters, the front order trades without the book being told, the
      order with an id leaves, or is told to have another quantity remaining. */
  datatype Step = Enter(order: Ord) | TradeFront(quantity: int) | Leave(id: nat) | Resize(id: nat, quantity: int)

  predicate Possible(h: Half, a: Step) {
    match a
    case Enter(o) => o.price > 0 && o.quantity > 0 && o.remaining > 0 && !HasId(h.queue, o.id)
    case TradeFront(q) => h.queue != [] && 0 < q <= h.queue[0].remaining
    case Leave(id) => HasId(h.queue, id)
    case Resize(id, q) => HasId(h.queue, id) && (q > 0 || (q == 0 && TradedAt(h, h.queue[IndexOf(h.queue, id)].price)))
  }

  /** Something was traded at the price since its level was made. */
  predicate TradedAt(h: Half, p: int) { p in h.since && h.since[p] > 0 }

  function PlaceOf(buy: bool, h: Half, o: Ord): (n: nat)
    ensures n <= |h.queue|
  {
    Position(buy, OrdKeys(h.queue), Key(o.price, o.timestamp))
  }

  /** The queue after a step. */
  function Applied(buy: bool, h: Half, a: Step): Half
    requires Possible(h, a)
  {
    match a
    case Enter(o) => WithOrder(buy, h, o)
    case TradeFront(q) => WithTrade(h, 0, q)
    case Leave(id) => WithoutOrder(h, IndexOf(h.queue, id))
    case Resize(id, q) => WithQuantity(h, IndexOf(h.queue, id), q)
  }

  /** The colours after a step. A trade looks for the front of the queue, a thousand steps down at most. */
  function Painted(buy: bool, h: Half, c: Colours.Canvas, a: Step): Colours.Outcome
    requires Possible(h, a) && |h.queue| == Colours.Size(c.shape)
  {
    match a
    case Enter(o) => Colours.Kept(Colours.Canvas(Colours.Grown(c.shape, PlaceOf(buy, h, o)), c.nilRed))
    case TradeFront(_) => if Colours.LeftDepth(c.shape) >= 1000 then Colours.Broken else Colours.Kept(c)
    case Leave(id) => Colours.Cut(c, IndexOf(h.queue, id))
    case Resize(_, _) => Colours.Kept(c)
  }

  // ---- Runs -------------------------------------------------------------------------------

  /** A side of the book, as the queue has it and as the tree is coloured. */
  datatype Picture = Picture(half: Half, outcome: Colours.Outcome)

  const START := Picture(EMPTY_HALF, Colours.Kept(Colours.Canvas(Colours.Tip, false)))

  predicate Sized(s: Picture) { s.outcome.Kept? ==> |s.half.queue| == Colours.Size(s.outcome.canvas.shape) }

  function Next(buy: bool, s: Picture, a: Step): (s': Picture)
    requires Sized(s) && Possible(s.half, a)
    ensures Sized(s')
  {
    var half := Applied(buy, s.half, a);
    if s.outcome.Broken? then Picture(half, Colours.Broken)
    else
      StepSized(buy, s.half, s.outcome.canvas, a);
      Picture(half, Painted(buy, s.half, s.outcome.canvas, a))
  }

  /** The steps of `steps` can be taken one after the other. */
  predicate Runs(buy: bool, s: Picture, steps: seq<Step>)
    requires Sized(s)
    decreases |steps|
  {
    steps == [] || (Possible(s.half, steps[0]) && Runs(buy, Next(buy, s, steps[0]), steps[1..]))
  }

  function After(buy: bool, s: Picture, steps: seq<Step>): (s': Picture)
    requires Sized(s) && Runs(buy, s, steps)
    ensures Sized(s')
    decreases |steps|
  {
    if steps == [] then s else After(buy, Next(buy, s, steps[0]), steps[1..])
  }

  lemma StepSized(buy: bool, h: Half, c: Colours.Canvas, a: Step)
    requires Possible(h, a) && |h.queue| == Colours.Size(c.shape)
    ensures var r := Painted(buy, h, c, a);
      r.Kept? ==> |Applied(buy, h, a).queue| == Colours.Size(r.canvas.shape)
  {
    match a
    case Enter(o) => Colours.GrownSize(c.shape, PlaceOf(buy, h, o));
    case TradeFront(_) =>
    case Leave(id) => Colours.CutSize(c, IndexOf(h.queue, id));
    case Resize(_, _) =>
  }

  lemma {:induction false} AfterConcat(buy: bool, s: Picture, a: seq<Step>, b: seq<Step>)
    requires Sized(s)
    ensures Runs(buy, s, a + b) <==> Runs(buy, s, a) && Runs(buy, After(buy, s, a), b)
    ensures Runs(buy, s, a + b) ==> After(buy, s, a + b) == After(buy, After(buy, s, a), b)
    decreases |a|
  {
    if a == [] {
      assert a + b == b;
    } else {
      assert (a + b)[1..] == a[1..] + b;
      if Possible(s.half, a[0]) { AfterConcat(buy, Next(buy, s, a[0]), a[1..], b); }
    }
  }

  /** Once broken, the colours stay unknown. */
  lemma {:induction false} BrokenStays(buy: bool, s: Picture, steps: seq<Step>)
    requires Sized(s) && Runs(buy, s, steps) && s.outcome.Broken?
    ensures After(buy, s, steps).outcome.Broken?
    decreases |steps|
  {
    if steps != [] { BrokenStays(buy, Next(buy, s, steps[0]), steps[1..]); }
  }

  /** Nobody enters at a price where someone was stamped later. */
  predicate InTime(buy: bool, s: Picture, steps: seq<Step>)
    requires Sized(s) && Runs(buy, s, steps)
    decreases |steps|
  {
    steps == [] ||
      ((steps[0].Enter? ==> NoLater(s.half.queue, steps[0].order)) && InTime(buy, Next(buy, s, steps[0]), steps[1..]))
  }

  lemma {:induction false} InTimeConcat(buy: bool, s: Picture, a: seq<Step>, b: seq<Step>)
    requires Sized(s) && Runs(buy, s, a) && Runs(buy, After(buy, s, a), b)
    requires InTime(buy, s, a) && InTime(buy, After(buy, s, a), b)
    ensures Runs(buy, s, a + b) && InTime(buy, s, a + b)
    decreases |a|
  {
    AfterConcat(buy, s, a, b);
    if a == [] {
      assert a + b == b;
    } else {
      assert (a + b)[1..] == a[1..] + b;
      InTimeConcat(buy, Next(buy, s, a[0]), a[1..], b);
    }
  }

  predicate NoEntry(steps: seq<Step>) { forall i :: 0 <= i < |steps| ==> !steps[i].Enter? }

  lemma NoEntryConcat(a: seq<Step>, b: seq<Step>)
    requires NoEntry(a) && NoEntry(b)
    ensures NoEntry(a + b)
  {
  }

  lemma {:induction false} NobodyEnters(buy: bool, s: Picture, steps: seq<Step>)
    requires Sized(s) && Runs(buy, s, steps) && NoEntry(steps)
    ensures InTime(buy, s, steps)
    decreases |steps|
  {
    if steps != [] { NobodyEnters(buy, Next(buy, s, steps[0]), steps[1..]); }
  }

  // ---- The tree takes the steps -------------------------------------------------------------

  ghost function Shown(side: OrderBookSide): Picture
    reads side, side.sentinel
  {
    Picture(side.Book(), side.Kept())
  }

  /** The tree and the queue are of one size, and the id map has the ids of the queue. */
  lemma ViewsSized(side: OrderBookSide)
    requires side.Valid()
    ensures Sized(Shown(side)) && |side.Contents()| == |side.view| && side.keys == OrdKeys(side.view)
  {
    ColouredSize(side.shape);
    MirroredKeys(side.Contents(), side.keys, side.view);
  }

  lemma IdsInView(side: OrderBookSide, id: nat)
    requires side.Valid()
    ensures id in side.orderMap <==> HasId(side.view, id)
    ensures id in side.orderMap ==>
      forall i :: 0 <= i < |side.Contents()| && side.Contents()[i] == side.orderMap[id] ==> i == IndexOf(side.view, id)
  {
    if id in side.orderMap {
      var i := side.PlaceInWalk(side.orderMap[id]);
      assert side.view[i].id == id;
      var k := IndexOf(side.view, id);
      assert side.Contents()[k] in side.Contents();
      assert side.Contents()[k].id == id;
    }
    if HasId(side.view, id) {
      var k := IndexOf(side.view, id);
      assert side.Contents()[k] in side.Contents();
    }
  }

  /** Each price's list is the walk restricted to the price. */
  ghost predicate Follows(side: OrderBookSide)
    reads side
  {
    ListsFollow(side.queues, side.Contents())
  }

  lemma NotEarlierIs(side: OrderBookSide, order: Order)
    requires side.Valid() && NoLater(side.view, order.View())
    ensures NotEarlier(side.Contents(), side.keys, order, KeyOf(order))
  {
    ViewsSized(side);
    forall i | 0 <= i < |side.Contents()| && side.Contents()[i].price == order.price
      ensures side.keys[i].timestamp <= KeyOf(order).timestamp
    {
      assert side.view[i] == side.Contents()[i].View() && OrdKeys(side.view)[i] == side.keys[i];
    }
  }

  /** A new order object with the value `o`. */
  method Make(o: Ord) returns (order: Order)
    ensures fresh(order) && order.View() == o
  {
    order := new Order(o.id, o.user, o.instrument, o.side, o.price, o.quantity, o.typ, o.timestamp);
    order.filled, order.remaining, order.status, order.sequence := o.filled, o.remaining, o.status, o.sequence;
  }

  /** The order of an entering step, as an object. */
  method EnterOrder(side: OrderBookSide, order: Order, ghost o: Ord, ghost s: Picture, ghost follows: bool,
                    ghost ns: set<Order>)
    requires (follows ==> Follows(side)) && ns == side.nodes
    requires side.Valid() && Sized(s) && s == Shown(side) && Possible(s.half, Enter(o))
    requires order.View() == o && order !in side.nodes && order != side.sentinel
    modifies side, side.nodes, order
    ensures side.Valid() && side.nodes == ns + {order}
    ensures Shown(side) == Next(side.isBuy, s, Enter(o))
    ensures NoLater(s.half.queue, o) && follows ==> Follows(side)
  {
    if NoLater(s.half.queue, o) { NotEarlierIs(side, order); }
    ViewsSized(side);
    IdsInView(side, o.id);
    assert PlaceOf(side.isBuy, s.half, o) == Position(side.isBuy, side.keys, KeyOf(order));
    var ok := side.Insert(order);
    assert Next(side.isBuy, s, Enter(o)) == Shown(side) by { NextEnter(side.isBuy, s, o, Shown(side)); }
  }

  lemma NextEnter(buy: bool, s: Picture, o: Ord, s': Picture)
    requires Sized(s) && Possible(s.half, Enter(o)) && s.outcome.Kept?
    requires s'.half == WithOrder(buy, s.half, o)
    requires s'.outcome == Colours.Kept(Colours.Canvas(
               Colours.Grown(s.outcome.canvas.shape, PlaceOf(buy, s.half, o)), s.outcome.canvas.nilRed))
    ensures Next(buy, s, Enter(o)) == s'
  {
  }

  lemma NextTrade(buy: bool, s: Picture, q: int)
    requires Sized(s) && Possible(s.half, TradeFront(q)) && s.outcome.Kept?
    ensures Colours.LeftDepth(s.outcome.canvas.shape) >= 1000 ==> Next(buy, s, TradeFront(q)).outcome.Broken?
    ensures Colours.LeftDepth(s.outcome.canvas.shape) < 1000 ==>
      Next(buy, s, TradeFront(q)) == Picture(WithTrade(s.half, 0, q), s.outcome)
  {
  }

  lemma NextLeave(buy: bool, s: Picture, id: nat)
    requires Sized(s) && Possible(s.half, Leave(id)) && s.outcome.Kept?
    ensures Next(buy, s, Leave(id)).outcome == Colours.Cut(s.outcome.canvas, IndexOf(s.half.queue, id))
    ensures Next(buy, s, Leave(id)).half == WithoutOrder(s.half, IndexOf(s.half.queue, id))
  {
  }

  method TakeEnter(side: OrderBookSide, o: Ord, ghost s: Picture)
    requires side.Valid() && Sized(s) && s == Shown(side) && Possible(s.half, Enter(o))
    modifies side, side.nodes
    ensures side.Valid() && forall n :: n in side.nodes ==> n in old(side.nodes) || fresh(n)
    ensures Shown(side) == Next(side.isBuy, s, Enter(o))
    ensures NoLater(s.half.queue, o) && old(Follows(side)) ==> Follows(side)
  {
    ghost var follows, ns := Follows(side), side.nodes;
    var order := Make(o);
    EnterOrder(side, order, o, s, follows, ns);
  }

  /** The front of walk and queue. */
  lemma FrontShown(side: OrderBookSide)
    requires side.Valid() && side.view != []
    ensures side.Contents() != [] && side.Contents()[0] in side.nodes && side.view[0] == side.Contents()[0].View()
  {
    assert side.Contents()[0] in side.Contents();
  }

  /** The front order as the engine finds it, unless it lies too deep. */
  method Front(side: OrderBookSide) returns (best: Order?)
    requires side.Valid() && side.view != []
    ensures best == null <==> Colours.LeftDepth(Coloured(side.shape)) >= 1000
    ensures side.Contents() != [] && side.Contents()[0] in side.nodes && side.view[0] == side.Contents()[0].View()
    ensures best != null ==> best == side.Contents()[0]
  {
    FrontShown(side);
    best := side.BestOrder();
  }

  /** The front by the tree and by the best level. */
  method Fronts(side: OrderBookSide) returns (best: Order?, level: PriceLevel, found: bool)
    requires side.Valid() && forall o :: o in side.nodes ==> o.price > 0
    ensures found <==> side.view != []
    ensures best == null <==> !found || Colours.LeftDepth(Coloured(side.shape)) >= 1000
    ensures found ==> side.Contents() != [] && side.view[0] == side.Contents()[0].View()
    ensures found && Follows(side) ==> level.first == side.Contents()[0]
    ensures best != null ==> found && best == side.Contents()[0]
  {
    ViewsSized(side);
    best := side.BestOrder();
    level, found := side.BestLevel();
    if found { FrontShown(side); }
  }

  method TakeTrade(side: OrderBookSide, quantity: int, ghost s: Picture) returns (clean: bool)
    requires side.Valid() && Sized(s) && s == Shown(side) && Possible(s.half, TradeFront(quantity))
    modifies side, side.nodes
    ensures clean ==> side.Valid() && side.nodes == old(side.nodes)
    ensures clean ==> Shown(side) == Next(side.isBuy, s, TradeFront(quantity))
    ensures clean && old(Follows(side)) ==> Follows(side)
    ensures !clean ==> Next(side.isBuy, s, TradeFront(quantity)).outcome.Broken?
  {
    NextTrade(side.isBuy, s, quantity);
    var best := Front(side);
    clean := best != null;
    if clean {
      side.Fill(best, quantity, 0);
    }
  }

  method TakeLeave(side: OrderBookSide, id: nat, ghost s: Picture) returns (clean: bool)
    requires side.Valid() && Sized(s) && s == Shown(side) && Possible(s.half, Leave(id))
    modifies side, side.nodes, side.sentinel
    ensures clean ==> side.Valid() && side.nodes <= old(side.nodes)
    ensures clean ==> Shown(side) == Next(side.isBuy, s, Leave(id))
    ensures clean && old(Follows(side)) ==> Follows(side)
    ensures !clean ==> Next(side.isBuy, s, Leave(id)).outcome.Broken?
  {
    IdsInView(side, id);
    NextLeave(side.isBuy, s, id);
    var ok;
    ghost var i, j;
    ok, clean, i, j := side.Remove(side.orderMap[id]);
  }

  method TakeResize(side: OrderBookSide, id: nat, quantity: int, ghost s: Picture)
    requires side.Valid() && Sized(s) && s == Shown(side) && Possible(s.half, Resize(id, quantity))
    modifies side, side.nodes
    ensures side.Valid() && side.nodes == old(side.nodes)
    ensures Shown(side) == Next(side.isBuy, s, Resize(id, quantity))
    ensures old(Follows(side)) ==> Follows(side)
  {
    IdsInView(side, id);
    NextResize(side.isBuy, s, id, quantity);
    ResizeMay(side, id, quantity);
    var ok;
    ghost var i;
    ok, i := side.UpdateQuantity(side.orderMap[id], quantity);
  }

  lemma NextResize(buy: bool, s: Picture, id: nat, quantity: int)
    requires Sized(s) && Possible(s.half, Resize(id, quantity)) && s.outcome.Kept?
    ensures Next(buy, s, Resize(id, quantity))
         == Picture(WithQuantity(s.half, IndexOf(s.half.queue, id), quantity), s.outcome)
  {
  }

  lemma ResizeMay(side: OrderBookSide, id: nat, quantity: int)
    requires side.Valid() && Possible(side.Book(), Resize(id, quantity)) && id in side.orderMap
    ensures side.MayRemain(side.orderMap[id], quantity)
  {
    IdsInView(side, id);
    var i := side.PlaceInWalk(side.orderMap[id]);
    assert i == IndexOf(side.view, id);
  }

  method Take(side: OrderBookSide, a: Step, ghost s: Picture) returns (clean: bool)
    requires side.Valid() && Sized(s) && s == Shown(side) && Possible(s.half, a)
    modifies side, side.nodes, side.sentinel
    ensures clean ==> side.Valid() && forall n :: n in side.nodes ==> n in old(side.nodes) || fresh(n)
    ensures clean ==> Shown(side) == Next(side.isBuy, s, a)
    ensures clean && (a.Enter? ==> NoLater(s.half.queue, a.order)) && old(Follows(side)) ==> Follows(side)
    ensures !clean ==> Next(side.isBuy, s, a).outcome.Broken?
  {
    match a
    case Enter(o) =>
      TakeEnter(side, o, s);
      clean := true;
    case TradeFront(q) => clean := TakeTrade(side, q, s);
    case Leave(id) => clean := TakeLeave(side, id, s);
    case Resize(id, q) =>
      TakeResize(side, id, q, s);
      clean := true;
  }

  /** The tree takes a run of steps, looking for the front of its queue and for ids as the engine does. It
      goes through with them exactly when the colours stay known, and then it shows what the queue says: the
      same orders in the same order, level totals and all. Lists that follow the walk still do if nobody entered
      at a price where someone was stamped later. */
  method TakeAll(side: OrderBookSide, steps: seq<Step>, ghost s: Picture) returns (clean: bool)
    requires side.Valid() && Sized(s) && s == Shown(side) && Runs(side.isBuy, s, steps)
    modifies side, side.nodes, side.sentinel
    ensures clean ==> side.Valid() && forall n :: n in side.nodes ==> n in old(side.nodes) || fresh(n)
    ensures clean ==> Shown(side) == After(side.isBuy, s, steps)
    ensures clean && InTime(side.isBuy, s, steps) && old(Follows(side)) ==> Follows(side)
    ensures clean <==> After(side.isBuy, s, steps).outcome.Kept?
    decreases |steps|
  {
    if steps == [] {
      return true;
    }
    ghost var s' := Next(side.isBuy, s, steps[0]);
    clean := Take(side, steps[0], s);
    if clean {
      clean := TakeAll(side, steps[1..], s');
    } else {
      BrokenStays(side.isBuy, s', steps[1..]);
    }
  }

  /** The same from an empty side. */
  method RunSide(buy: bool, steps: seq<Step>) returns (side: OrderBookSide, clean: bool)
    requires Runs(buy, START, steps)
    ensures fresh(side) && side.isBuy == buy
    ensures clean ==> side.Valid() && Shown(side) == After(buy, START, steps)
    ensures clean && InTime(buy, START, steps) ==> Follows(side)
    ensures clean <==> After(buy, START, steps).outcome.Kept?
  {
    side := new OrderBookSide(buy);
    clean := TakeAll(side, steps, START);
  }
}
