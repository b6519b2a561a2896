/** The shortest kind of run that crosses the book: one more small offer than an order may trade with, and a bid
    for all of them. */
module MarketCrosses {
  import opened Orders
  import opened Priority
  import opened PriceLevels
  import opened Matching
  import opened Market
  import opened MarketBook
  import opened MarketRuns

  /** An offer of one at the price 1. */
  function Lot(instrument: nat, id: nat): Ord {
    Ord(id, 1, instrument, Sell, Limit, 1, 1, 0, 1, Pending, 0, 0)
  }

  /** A bid for `n` at that price. */
  function Sweep(instrument: nat, n: nat): Ord {
    Ord(n, 2, instrument, Buy, Limit, 1, n, 0, n, Pending, 0, 0)
  }

  function Lots(instrument: nat, n: nat): (ops: seq<Op>)
    ensures |ops| == n && forall i :: 0 <= i < n ==> ops[i] == Place(Lot(instrument, i))
  {
    seq(n, i requires 0 <= i < n => Place(Lot(instrument, i)))
  }

  /** The sweep comes last. */
  function Swept(instrument: nat, n: nat): (ops: seq<Op>)
    ensures |ops| == n + 1 && ops[..n] == Lots(instrument, n) && ops[n] == Place(Sweep(instrument, n))
  {
    Lots(instrument, n) + [Place(Sweep(instrument, n))]
  }

  ghost predicate SmallLots(q: seq<Ord>) {
    forall i :: 0 <= i < |q| ==> q[i].price == 1 && q[i].remaining == 1 && q[i].side.Sell?
  }

  lemma QuietLot(w: World, s: State, o: Ord)
    requires s.bids.queue == [] && SmallLots(s.asks.queue) && o.id !in s.owned && o == Lot(w.instrument, o.id)
    ensures var s' := Process(w, s, o);
      s'.bids.queue == [] && SmallLots(s'.asks.queue) && |s'.asks.queue| == |s.asks.queue| + 1
  {
    var a := Arrived(w, s, o);
    assert MatchOf(w, s, o) == Outcome(a, [], [], []);
    assert Process(w, s, o).asks == WithOrder(false, s.asks, a);
  }

  lemma LotsNew(instrument: nat, n: nat)
    ensures NewOrders(Lots(instrument, n)) && !PlacedIn(Lots(instrument, n), n)
  {
  }

  lemma LotIsNew(w: World, ops: seq<Op>, n: nat)
    requires NeverBackwards(w) && ops == Lots(w.instrument, n)
    ensures Holding(w, Run(w, ops)) && n !in Run(w, ops).owned
  {
    LotsNew(w.instrument, n);
    RunHolds(w, ops);
  }

  /** Nothing but `n` of the offers is in the book. */
  ghost predicate OnlyLots(s: State, n: nat) {
    s.bids.queue == [] && SmallLots(s.asks.queue) && |s.asks.queue| == n
  }

  lemma LotsMore(instrument: nat, n: nat)
    ensures Lots(instrument, n + 1) == Lots(instrument, n) + [Place(Lot(instrument, n))]
  {
  }

  lemma NoLots(w: World)
    ensures OnlyLots(Run(w, Lots(w.instrument, 0)), 0)
  {
    assert Lots(w.instrument, 0) == [];
  }

  lemma OneMoreLot(w: World, ops: seq<Op>, more: seq<Op>, n: nat)
    requires OnlyLots(Run(w, ops), n) && n !in Run(w, ops).owned && more == ops + [Place(Lot(w.instrument, n))]
    ensures OnlyLots(Run(w, more), n + 1)
  {
    RunMore(w, ops, Place(Lot(w.instrument, n)));
    QuietLot(w, Run(w, ops), Lot(w.instrument, n));
  }

  lemma {:induction false} LotsRest(w: World, n: nat)
    requires NeverBackwards(w)
    ensures OnlyLots(Run(w, Lots(w.instrument, n)), n)
  {
    if n == 0 {
      NoLots(w);
    } else {
      var init := Lots(w.instrument, n - 1);
      LotsRest(w, n - 1);
      LotIsNew(w, init, n - 1);
      LotsMore(w.instrument, n - 1);
      OneMoreLot(w, init, Lots(w.instrument, n), n - 1);
    }
  }

  lemma {:induction false} LotsTotal(q: seq<Ord>)
    requires SmallLots(q)
    ensures Remaining(q) == |q|
  {
    if q != [] { LotsTotal(q[1..]); }
  }

  lemma LotsInReach(taker: Ord, q: seq<Ord>)
    requires SmallLots(q) && taker.side.Buy? && taker.price == 1
    ensures Reach(Classic, taker, q) == |q|
  {
    ReachBounds(Classic, taker, q);
  }

  lemma SweepNew(instrument: nat, n: nat)
    requires n > 0
    ensures NewOrders(Swept(instrument, n))
  {
    var ops := Swept(instrument, n);
    assert forall i :: 0 <= i < n ==> ops[i] == ops[..n][i];
  }

  /** After more than 10000 such offers the sweep is cut short and rests, crossing the book. */
  lemma SweepCrosses(w: World, n: nat)
    requires NeverBackwards(w) && n > 10000
    ensures NewOrders(Swept(w.instrument, n)) && !Uncrossed(Run(w, Swept(w.instrument, n)))
  {
    var ops, o := Lots(w.instrument, n), Sweep(w.instrument, n);
    var s := Run(w, ops);
    LotsRest(w, n);
    LotIsNew(w, ops, n);
    SweepNew(w.instrument, n);
    SweepIsCut(w, s, n);
    assert Swept(w.instrument, n) == ops + [Place(o)];
    RunMore(w, ops, Place(o));
    ProcessUncrossed(w, s, o);
  }

  lemma SweepIsCut(w: World, s: State, n: nat)
    requires OnlyLots(s, n) && n > MAX_ITERATIONS
    ensures Crosses(w, s, Sweep(w.instrument, n)) && Uncrossed(s)
  {
    LotsInReach(Arrived(w, s, Sweep(w.instrument, n)), s.asks.queue);
    LotsTotal(s.asks.queue[..MAX_ITERATIONS]);
  }
}
