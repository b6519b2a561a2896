/** The two sides of the book under runs of the engine: as long as no removal of the run rotates around a
    sentinel, the trees stand for the queues, so what holds of every run holds of the trees. */
module MarketTrees {
  import opened Orders
  import opened Priority
  import opened PriceLevels
  import opened Matching
  import opened Market
  import opened MarketBook
  import opened MarketTotals
  import opened MarketLevels
  import opened MarketRuns
  import opened MarketDeterminism
  import opened MarketSteps
  import opened OrderBook
  import opened TreeShape
  import opened TreeColours
  import Colours
  import B = BookRuns

  // ---- In time ------------------------------------------------------------------------------

  lemma CancelNobody(s: State, id: nat, user: nat, side: Side)
    ensures B.NoEntry(CancelSteps(s, id, user, side))
  {
    var a := CancelSteps(s, id, user, side);
    assert a == [] || a == [B.Leave(id)];
  }

  lemma {:induction false} CancelEachNobody(s: State, ids: seq<nat>, user: nat, side: Side)
    ensures B.NoEntry(CancelEachSteps(s, ids, user, side))
  {
    if ids != [] {
      var n := |ids| - 1;
      CancelEachNobody(s, ids[..n], user, side);
      CancelNobody(CancelEach(s, ids[..n], user), ids[n], user, side);
      B.NoEntryConcat(CancelEachSteps(s, ids[..n], user, side),
        CancelSteps(CancelEach(s, ids[..n], user), ids[n], user, side));
    }
  }

  lemma EntryInTime(w: World, s: State, o: Ord, t: B.Picture)
    requires BookSound(w, s) && Acceptable(w, o) && Fresh(o) && B.Sized(t) && t.half == s.Side(o.side)
    requires B.Runs(o.side.Buy?, t, EntrySteps(TakerAfter(w, s, o)))
    ensures B.InTime(o.side.Buy?, t, EntrySteps(TakerAfter(w, s, o)))
  {
    QueueNoLater(w, s, o);
    assert Matched(w, s, o).Side(o.side) == s.Side(o.side);
    var a := EntrySteps(TakerAfter(w, s, o));
    assert a != [] ==> a[1..] == [];
  }

  lemma StepsInTime(w: World, s: State, op: Op, side: Side, t: B.Picture)
    requires NeverBackwards(w) && Holding(w, s) && B.Sized(t) && t.half == s.Side(side)
    requires op.Place? ==> Fresh(op.order) && !Known(s, op.order.id)
    requires B.Runs(side.Buy?, t, StepsOf(w, s, op, side))
    ensures B.InTime(side.Buy?, t, StepsOf(w, s, op, side))
  {
    if op.Place? && Acceptable(w, op.order) && side == op.order.side {
      EntryInTime(w, s, op.order, t);
    } else {
      OthersEnterNobody(w, s, op, side);
      B.NobodyEnters(side.Buy?, t, StepsOf(w, s, op, side));
    }
  }

  /** Only a placed order enters, and only its own side. */
  lemma OthersEnterNobody(w: World, s: State, op: Op, side: Side)
    requires op.Place? && Acceptable(w, op.order) ==> side != op.order.side
    ensures B.NoEntry(StepsOf(w, s, op, side))
  {
    match op
    case Place(o) =>
      FillNobody(MatchOf(w, s, o).fills, |MatchOf(w, s, o).gone|);
    case CancelOne(id, user) => CancelNobody(s, id, user, side);
    case CancelUser(user) => if user in s.users { CancelEachNobody(s, s.users[user], user, side); }
  }

  lemma {:induction false} RunInTime(w: World, ops: seq<Op>, side: Side)
    requires NeverBackwards(w) && NewOrders(ops)
    ensures Leads(side, B.START, StepsOfRun(w, ops, side), Run(w, ops).Side(side))
    ensures B.InTime(side.Buy?, B.START, StepsOfRun(w, ops, side))
  {
    RunLeads(w, ops, side);
    if ops != [] {
      var n := |ops| - 1;
      RunInTime(w, ops[..n], side);
      InTimeOn(w, ops[..n], Run(w, ops[..n]), ops[n], side, StepsOfRun(w, ops[..n], side));
    }
  }

  /** One more operation after the run `pre`, which took the side through the steps `a`. */
  lemma InTimeOn(w: World, pre: seq<Op>, s: State, op: Op, side: Side, a: seq<B.Step>)
    requires NeverBackwards(w) && NewOrders(pre) && s == Run(w, pre)
    requires op.Place? ==> Fresh(op.order) && !PlacedIn(pre, op.order.id)
    requires Leads(side, B.START, a, s.Side(side)) && B.InTime(side.Buy?, B.START, a)
    ensures B.Runs(side.Buy?, B.START, a + StepsOf(w, s, op, side))
      && B.InTime(side.Buy?, B.START, a + StepsOf(w, s, op, side))
  {
    var t := B.After(side.Buy?, B.START, a);
    RunHolds(w, pre);
    StepLeads(w, s, op, side, t);
    StepsInTime(w, s, op, side, t);
    B.InTimeConcat(side.Buy?, B.START, a, StepsOf(w, s, op, side));
  }

  // ---- The trees of a run -------------------------------------------------------------------

  /** The tree stands for one side of the book a run ends with: its walk, its level totals and what was traded
      at each level are the queue's, and each price's list is the walk restricted to the price. */
  ghost predicate Carries(book: OrderBookSide, h: Half, side: Side)
    reads book, book.nodes
  {
    book.Valid() && book.isBuy == side.Buy? && book.Book() == h && B.Follows(book)
  }

  method SideOfRun(w: World, ops: seq<Op>, side: Side) returns (book: OrderBookSide, clean: bool)
    requires NeverBackwards(w) && NewOrders(ops)
    ensures fresh(book) && (clean <==> Stands(w, ops, side))
    ensures clean ==> Carries(book, Run(w, ops).Side(side), side)
  {
    RunInTime(w, ops, side);
    book, clean := B.RunSide(side.Buy?, StepsOfRun(w, ops, side));
  }

  /** What holds of every run holds of a tree that carries one side of its book: the walk is in priority order
      and holds only live LIMIT orders of the side, and every level total is what remains there and what was
      traded. */
  lemma TreeHolds(w: World, ops: seq<Op>, book: OrderBookSide, side: Side)
    requires NeverBackwards(w) && NewOrders(ops) && Carries(book, Run(w, ops).Side(side), side)
    ensures Sorted(side.Buy?, book.keys) && LevelLaw(book.Book())
    ensures forall i :: 0 <= i < |book.Contents()| ==>
      book.Contents()[i].price > 0
      && Sound(book.Contents()[i].View(), side, Run(w, ops).sequence, w.clock(Run(w, ops).tick))
  {
    RunHolds(w, ops);
    assert QueueSound(book.view, side, Run(w, ops).sequence, w.clock(Run(w, ops).tick));
  }

  /** The trees are not crossed if no order of the run was cut short. */
  lemma TreesUncrossed(w: World, ops: seq<Op>, bids: OrderBookSide, asks: OrderBookSide)
    requires NeverBackwards(w) && NewOrders(ops) && NeverCutShort(w, ops)
    requires Carries(bids, Run(w, ops).bids, Buy) && Carries(asks, Run(w, ops).asks, Sell)
    ensures forall i, j :: 0 <= i < |bids.Contents()| && 0 <= j < |asks.Contents()| ==>
      bids.Contents()[i].price < asks.Contents()[j].price
  {
    RunUncrossed(w, ops);
    forall i, j | 0 <= i < |bids.Contents()| && 0 <= j < |asks.Contents()|
      ensures bids.Contents()[i].price < asks.Contents()[j].price
    {
      assert bids.view[i].price == bids.Contents()[i].price && asks.view[j].price == asks.Contents()[j].price;
    }
  }

  /** The front of such a tree, as the loop finds it and as the best level has it: the one is the other, and is the
      front of the run's queue. */
  method FrontsOfRun(w: World, ops: seq<Op>, book: OrderBookSide, side: Side)
      returns (best: Order?, level: PriceLevel, found: bool)
    requires NeverBackwards(w) && NewOrders(ops) && Carries(book, Run(w, ops).Side(side), side)
    ensures found <==> Run(w, ops).Side(side).queue != []
    ensures best == null <==> !found || Colours.LeftDepth(Coloured(book.shape)) >= 1000
    ensures found ==> level.first != null && level.first.View() == Run(w, ops).Side(side).queue[0]
    ensures best != null ==> best == level.first
  {
    TreeHolds(w, ops, book, side);
    FrontPositive(book);
    best, level, found := B.Fronts(book);
  }

  lemma FrontPositive(book: OrderBookSide)
    requires book.Valid() && forall i :: 0 <= i < |book.Contents()| ==> book.Contents()[i].price > 0
    ensures (forall o :: o in book.nodes ==> o.price > 0) && |book.view| == |book.Contents()|
  {
    WalkElems(book.shape);
    B.ViewsSized(book);
    forall o | o in book.nodes ensures o.price > 0 {
      assert o in book.Contents();
    }
  }

  /** Two trees take the steps of a run, and get through exactly when both stand. Then they carry its book. */
  method TreesOfRun(w: World, ops: seq<Op>) returns (bids: OrderBookSide, asks: OrderBookSide, clean: bool)
    requires NeverBackwards(w) && NewOrders(ops)
    ensures clean <==> Stands(w, ops, Buy) && Stands(w, ops, Sell)
    ensures clean ==> Carries(bids, Run(w, ops).bids, Buy) && Carries(asks, Run(w, ops).asks, Sell)
  {
    var ok;
    bids, clean := SideOfRun(w, ops, Buy);
    asks, ok := SideOfRun(w, ops, Sell);
    clean := clean && ok;
  }
}
