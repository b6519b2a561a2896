/** Whether the trees of a run stand does not depend on the clock. */
module MarketTreesAgree {
  import opened Orders
  import opened Priority
  import opened PriceLevels
  import opened Matching
  import opened Market
  import opened MarketBook
  import opened MarketRuns
  import opened MarketDeterminism
  import opened MarketSteps
  import opened MarketTrees
  import opened OrderBook
  import B = BookRuns

  /** The same step up to statuses and stamps. */
  ghost predicate Alike(a: B.Step, b: B.Step) {
    match (a, b)
    case (Enter(o), Enter(o')) => Bare(o) == Bare(o')
    case (TradeFront(q), TradeFront(q')) => q == q'
    case (Leave(id), Leave(id')) => id == id'
    case (Resize(id, q), Resize(id', q')) => id == id' && q == q'
    case _ => false
  }

  ghost predicate AllAlike(a: seq<B.Step>, b: seq<B.Step>) {
    |a| == |b| && forall i :: 0 <= i < |a| ==> Alike(a[i], b[i])
  }

  /** The same picture up to statuses and stamps. */
  ghost predicate SamePicture(a: B.Picture, b: B.Picture) { SameHalf(a.half, b.half) && a.outcome == b.outcome }

  lemma NextAlike(buy: bool, t1: B.Picture, t2: B.Picture, a1: B.Step, a2: B.Step)
    requires B.Sized(t1) && B.Sized(t2) && SamePicture(t1, t2) && Alike(a1, a2)
    requires B.Possible(t1.half, a1) && B.Possible(t2.half, a2)
    requires a1.Enter? ==> NoLater(t1.half.queue, a1.order) && NoLater(t2.half.queue, a2.order)
    ensures SamePicture(B.Next(buy, t1, a1), B.Next(buy, t2, a2))
  {
    match a1
    case Enter(o) => SameInsert(buy, t1.half, t2.half, o, a2.order); SamePlace(buy, t1.half, t2.half, o, a2.order);
    case TradeFront(q) => SameTradeFront(t1.half, t2.half, q);
    case Leave(id) =>
      IndexOfBare(t1.half.queue, id);
      IndexOfBare(t2.half.queue, id);
      SameWithout(t1.half, t2.half, IndexOf(t1.half.queue, id));
    case Resize(id, q) =>
      IndexOfBare(t1.half.queue, id);
      IndexOfBare(t2.half.queue, id);
      SameQuantity(t1.half, t2.half, IndexOf(t1.half.queue, id), q);
  }

  lemma SamePlace(buy: bool, h1: Half, h2: Half, o1: Ord, o2: Ord)
    requires SameHalf(h1, h2) && Bare(o1) == Bare(o2) && NoLater(h1.queue, o1) && NoLater(h2.queue, o2)
    ensures B.PlaceOf(buy, h1, o1) == B.PlaceOf(buy, h2, o2)
  {
    BareAt(h1.queue, h2.queue);
    PositionByPrice(buy, OrdKeys(h1.queue), OrdKeys(h2.queue), Key(o1.price, o1.timestamp),
      Key(o2.price, o2.timestamp));
  }

  lemma SameTradeFront(h1: Half, h2: Half, q: int)
    requires SameHalf(h1, h2) && h1.queue != [] && h2.queue != []
    ensures SameHalf(WithTrade(h1, 0, q), WithTrade(h2, 0, q))
  {
    BareAt(h1.queue, h2.queue);
  }

  lemma SameWithout(h1: Half, h2: Half, i: nat)
    requires SameHalf(h1, h2) && i < |h1.queue| && i < |h2.queue|
    ensures SameHalf(WithoutOrder(h1, i), WithoutOrder(h2, i))
  {
    BareAt(h1.queue, h2.queue);
    BareWithout(h1.queue, i);
    BareWithout(h2.queue, i);
  }

  lemma SameQuantity(h1: Half, h2: Half, i: nat, q: int)
    requires SameHalf(h1, h2) && i < |h1.queue| && i < |h2.queue|
    ensures SameHalf(WithQuantity(h1, i, q), WithQuantity(h2, i, q))
  {
    BareAt(h1.queue, h2.queue);
    assert Bare(h1.queue[i]).price == h1.queue[i].price && Bare(h2.queue[i]).price == h2.queue[i].price;
    assert Bare(h1.queue[i]).remaining == h1.queue[i].remaining && Bare(h2.queue[i]).remaining == h2.queue[i].remaining;
  }

  lemma {:induction false} AfterAlike(side: Side, t1: B.Picture, t2: B.Picture, s1: seq<B.Step>, s2: seq<B.Step>)
    requires B.Sized(t1) && B.Sized(t2) && SamePicture(t1, t2) && AllAlike(s1, s2)
    requires B.Runs(side.Buy?, t1, s1) && B.Runs(side.Buy?, t2, s2) && B.InTime(side.Buy?, t1, s1)
      && B.InTime(side.Buy?, t2, s2)
    ensures SamePicture(B.After(side.Buy?, t1, s1), B.After(side.Buy?, t2, s2))
    decreases |s1|
  {
    if s1 != [] {
      NextAlike(side.Buy?, t1, t2, s1[0], s2[0]);
      AfterAlike(side, B.Next(side.Buy?, t1, s1[0]), B.Next(side.Buy?, t2, s2[0]), s1[1..], s2[1..]);
    }
  }

  // ---- The steps of two runs ----------------------------------------------------------------

  lemma {:induction false} FillStepsAlike(f1: seq<Fill>, f2: seq<Fill>, g: nat)
    requires BareFills(f1) == BareFills(f2)
    ensures FillSteps(f1, g) == FillSteps(f2, g)
    ensures B.NoEntry(FillSteps(f1, g))
    decreases |f1|
  {
    assert |f1| == |BareFills(f1)| == |BareFills(f2)| == |f2|;
    if f1 != [] {
      assert BareFills(f1)[0] == BareFills(f2)[0];
      assert BareFills(f1[1..]) == BareFills(f1)[1..] && BareFills(f2[1..]) == BareFills(f2)[1..];
      assert Bare(f1[0].maker).id == f1[0].maker.id && Bare(f2[0].maker).id == f2[0].maker.id;
      FillStepsAlike(f1[1..], f2[1..], if g == 0 then 0 else g - 1);
    }
  }

  lemma CancelAlike(w1: World, w2: World, s1: State, s2: State, id: nat, user: nat, side: Side)
    requires SameMarket(s1, s2) && BookSound(w1, s1) && BookSound(w2, s2)
    ensures CancelSteps(s1, id, user, side) == CancelSteps(s2, id, user, side)
  {
    BookActive(w1, s1); BookActive(w2, s2);
    SameFound(s1.bids.queue, s2.bids.queue, id, user);
    SameFound(s1.asks.queue, s2.asks.queue, id, user);
  }

  lemma {:induction false} CancelEachAlike(w1: World, w2: World, s1: State, s2: State, ids: seq<nat>, user: nat,
      side: Side)
    requires SameMarket(s1, s2) && BookSound(w1, s1) && BookSound(w2, s2)
    ensures CancelEachSteps(s1, ids, user, side) == CancelEachSteps(s2, ids, user, side)
  {
    if ids != [] {
      var n := |ids| - 1;
      CancelEachAlike(w1, w2, s1, s2, ids[..n], user, side);
      SameCancelEach(w1, w2, s1, s2, ids[..n], user);
      CancelEachKeeps(w1, s1, ids[..n], user);
      CancelEachKeeps(w2, s2, ids[..n], user);
      CancelAlike(w1, w2, CancelEach(s1, ids[..n], user), CancelEach(s2, ids[..n], user), ids[n], user, side);
    }
  }

  lemma PlaceAlike(w1: World, w2: World, s1: State, s2: State, o: Ord, side: Side)
    requires BothNeverBackwards(w1, w2) && SameMarket(s1, s2) && BookSound(w1, s1) && BookSound(w2, s2) && Fresh(o)
    ensures AllAlike(StepsOf(w1, s1, Place(o), side), StepsOf(w2, s2, Place(o), side))
  {
    if Acceptable(w1, o) && side == o.side {
      SameTaker(w1, w2, s1, s2, o);
    } else if Acceptable(w1, o) {
      SameMatchOf(w1, w2, s1, s2, o);
      FillStepsAlike(MatchOf(w1, s1, o).fills, MatchOf(w2, s2, o).fills, |MatchOf(w1, s1, o).gone|);
      assert |MatchOf(w1, s1, o).gone| == |BareAll(MatchOf(w1, s1, o).gone)| == |MatchOf(w2, s2, o).gone|;
    }
  }

  lemma CancelUserAlike(w1: World, w2: World, s1: State, s2: State, user: nat, side: Side)
    requires SameMarket(s1, s2) && BookSound(w1, s1) && BookSound(w2, s2)
    ensures StepsOf(w1, s1, CancelUser(user), side) == StepsOf(w2, s2, CancelUser(user), side)
  {
    if user in s1.users { CancelEachAlike(w1, w2, s1, s2, s1.users[user], user, side); }
  }

  lemma AlikeItself(a: seq<B.Step>)
    requires B.NoEntry(a)
    ensures AllAlike(a, a)
  {
  }

  lemma StepsAlike(w1: World, w2: World, s1: State, s2: State, op: Op, side: Side)
    requires BothNeverBackwards(w1, w2) && SameMarket(s1, s2) && BookSound(w1, s1) && BookSound(w2, s2)
    requires op.Place? ==> Fresh(op.order)
    ensures AllAlike(StepsOf(w1, s1, op, side), StepsOf(w2, s2, op, side))
  {
    if op.Place? {
      PlaceAlike(w1, w2, s1, s2, op.order, side);
    } else {
      if op.CancelOne? {
        CancelAlike(w1, w2, s1, s2, op.id, op.user, side);
      } else {
        CancelUserAlike(w1, w2, s1, s2, op.user, side);
      }
      OthersEnterNobody(w1, s1, op, side);
      AlikeItself(StepsOf(w1, s1, op, side));
    }
  }

  lemma AlikeConcat(a1: seq<B.Step>, a2: seq<B.Step>, b1: seq<B.Step>, b2: seq<B.Step>)
    requires AllAlike(a1, a2) && AllAlike(b1, b2)
    ensures AllAlike(a1 + b1, a2 + b2)
  {
  }

  lemma {:induction false} RunStepsAlike(w1: World, w2: World, ops: seq<Op>, side: Side)
    requires BothNeverBackwards(w1, w2) && NewOrders(ops)
    ensures AllAlike(StepsOfRun(w1, ops, side), StepsOfRun(w2, ops, side))
  {
    if ops != [] {
      var n := |ops| - 1;
      RunStepsAlike(w1, w2, ops[..n], side);
      AlikeOn(w1, w2, ops[..n], Run(w1, ops[..n]), Run(w2, ops[..n]), ops[n], side,
              StepsOfRun(w1, ops[..n], side), StepsOfRun(w2, ops[..n], side));
    }
  }

  lemma AlikeOn(w1: World, w2: World, pre: seq<Op>, s1: State, s2: State, op: Op, side: Side,
                a1: seq<B.Step>, a2: seq<B.Step>)
    requires BothNeverBackwards(w1, w2) && NewOrders(pre) && s1 == Run(w1, pre) && s2 == Run(w2, pre)
    requires op.Place? ==> Fresh(op.order)
    requires AllAlike(a1, a2)
    ensures AllAlike(a1 + StepsOf(w1, s1, op, side), a2 + StepsOf(w2, s2, op, side))
  {
    RunsAgree(w1, w2, pre);
    RunHolds(w1, pre);
    RunHolds(w2, pre);
    StepsAlike(w1, w2, s1, s2, op, side);
    AlikeConcat(a1, a2, StepsOf(w1, s1, op, side), StepsOf(w2, s2, op, side));
  }

  /** The same operations under any two clocks that never run backwards: the trees stand under both or under
      neither, and if they stand their colours and their queues are the same up to statuses and stamps. */
  lemma TreesAgree(w1: World, w2: World, ops: seq<Op>, side: Side)
    requires BothNeverBackwards(w1, w2) && NewOrders(ops)
    ensures Colouring(w1, ops, side) == Colouring(w2, ops, side)
    ensures Stands(w1, ops, side) <==> Stands(w2, ops, side)
    ensures SameHalf(Run(w1, ops).Side(side), Run(w2, ops).Side(side))
  {
    RunInTime(w1, ops, side);
    RunInTime(w2, ops, side);
    RunStepsAlike(w1, w2, ops, side);
    AfterAlike(side, B.START, B.START, StepsOfRun(w1, ops, side), StepsOfRun(w2, ops, side));
  }
}
