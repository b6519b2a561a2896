/** Two runs of the same operations differ in timestamps only, whatever the clocks say. */
module MarketDeterminism {
  import opened Orders
  import opened Priority
  import opened PriceLevels
  import opened Matching
  import opened Market
  import opened MarketBook
  import opened MarketRuns

  function BareTrades(t: seq<Trade>): seq<Trade> {
    seq(|t|, i requires 0 <= i < |t| => t[i].(timestamp := 0))
  }

  ghost predicate SameHalf(a: Half, b: Half) {
    BareAll(a.queue) == BareAll(b.queue) && a.totals == b.totals && a.since == b.since
  }

  /** The same market up to statuses and stamps: the same books in the same order with the same
      quantities, the same trades, the same indexes and counters. */
  ghost predicate SameMarket(a: State, b: State) {
    && SameHalf(a.bids, b.bids) && SameHalf(a.asks, b.asks)
    && a.owned == b.owned && a.users == b.users && a.count == b.count && a.volume == b.volume
    && a.sequence == b.sequence && a.tick == b.tick
    && BareTrades(a.tape) == BareTrades(b.tape) && BareAll(a.done) == BareAll(b.done)
  }

  ghost predicate BothNeverBackwards(w1: World, w2: World) {
    NeverBackwards(w1) && NeverBackwards(w2) && w1.instrument == w2.instrument
  }

  // ---- What does not see stamps ---------------------------------------------------------------

  lemma {:induction false} TakeAllBare(t: map<int, int>, gone: seq<Ord>)
    ensures TakeAll(t, gone) == TakeAll(t, BareAll(gone))
  {
    if gone != [] {
      assert BareAll(gone)[..|gone| - 1] == BareAll(gone[..|gone| - 1]);
      TakeAllBare(t, gone[..|gone| - 1]);
    }
  }

  lemma {:induction false} AddFillsBare(t: map<int, int>, f: seq<Fill>)
    ensures AddFills(t, f) == AddFills(t, BareFills(f))
  {
    if f != [] {
      assert BareFills(f)[..|f| - 1] == BareFills(f[..|f| - 1]);
      AddFillsBare(t, f[..|f| - 1]);
    }
  }

  lemma {:induction false} DropAllBare(users: map<nat, seq<nat>>, gone: seq<Ord>)
    ensures DropAll(users, gone) == DropAll(users, BareAll(gone))
  {
    if gone != [] {
      assert BareAll(gone)[..|gone| - 1] == BareAll(gone[..|gone| - 1]);
      DropAllBare(users, gone[..|gone| - 1]);
    }
  }

  lemma {:induction false} VolumeBare(f: seq<Fill>)
    ensures Volume(f) == Volume(BareFills(f))
  {
    if f != [] {
      assert BareFills(f)[1..] == BareFills(f[1..]);
      VolumeBare(f[1..]);
    }
  }

  lemma HasIdBare(q: seq<Ord>, id: nat)
    ensures HasId(q, id) <==> HasId(BareAll(q), id)
  {
    if HasId(q, id) {
      var i :| 0 <= i < |q| && q[i].id == id;
      assert BareAll(q)[i].id == id;
    }
  }

  lemma {:induction false} IndexOfBare(q: seq<Ord>, id: nat)
    requires HasId(q, id)
    ensures HasId(BareAll(q), id) && IndexOf(BareAll(q), id) == IndexOf(q, id)
  {
    HasIdBare(q, id);
    assert BareAll(q)[|q| - 1] == Bare(q[|q| - 1]);
    if q[|q| - 1].id != id {
      var init := q[..|q| - 1];
      assert HasId(init, id) by {
        var i :| 0 <= i < |q| && q[i].id == id;
        assert init[i].id == id;
      }
      assert BareAll(q)[..|q| - 1] == BareAll(init);
      IndexOfBare(init, id);
    }
  }

  lemma DisownBare(owned: set<nat>, g1: seq<Ord>, g2: seq<Ord>)
    requires BareAll(g1) == BareAll(g2)
    ensures Disown(owned, g1) == Disown(owned, g2)
  {
    BareAt(g1, g2);
    assert forall i :: 0 <= i < |g1| ==> Bare(g1[i]).id == g1[i].id && Bare(g2[i]).id == g2[i].id;
    assert (set i | 0 <= i < |g1| :: g1[i].id) == (set i | 0 <= i < |g2| :: g2[i].id);
  }

  // ---- Insertion ------------------------------------------------------------------------------

  /** A newcomer stamped no earlier than anyone at its price queues by price alone. */
  lemma PositionByPrice(buy: bool, s1: seq<Key>, s2: seq<Key>, k1: Key, k2: Key)
    requires |s1| == |s2| && k1.price == k2.price
    requires forall i :: 0 <= i < |s1| ==> s1[i].price == s2[i].price
    requires forall i :: 0 <= i < |s1| && s1[i].price == k1.price ==>
      s1[i].timestamp <= k1.timestamp && s2[i].timestamp <= k2.timestamp
    ensures Position(buy, s1, k1) == Position(buy, s2, k2)
  {
    var n1, n2 := Position(buy, s1, k1), Position(buy, s2, k2);
    assert n1 < n2 ==> Ahead(buy, k1, s1[n1]) && !Ahead(buy, k2, s2[n1]);
    assert n2 < n1 ==> Ahead(buy, k2, s2[n2]) && !Ahead(buy, k1, s1[n2]);
  }

  /** Orders alike join queues alike at the same place. */
  lemma BareQueueInsert(buy: bool, q1: seq<Ord>, q2: seq<Ord>, o1: Ord, o2: Ord)
    requires BareAll(q1) == BareAll(q2) && Bare(o1) == Bare(o2) && NoLater(q1, o1) && NoLater(q2, o2)
    ensures var n1 := Position(buy, OrdKeys(q1), Key(o1.price, o1.timestamp));
      var n2 := Position(buy, OrdKeys(q2), Key(o2.price, o2.timestamp));
      BareAll(InsertAt(q1, n1, o1)) == BareAll(InsertAt(q2, n2, o2))
  {
    BareAt(q1, q2);
    assert forall i :: 0 <= i < |q1| ==> Bare(q1[i]).price == q1[i].price && Bare(q2[i]).price == q2[i].price;
    assert Bare(o1).price == o1.price && Bare(o2).price == o2.price;
    PositionByPrice(buy, OrdKeys(q1), OrdKeys(q2), Key(o1.price, o1.timestamp), Key(o2.price, o2.timestamp));
    BareInsert(q1, Position(buy, OrdKeys(q1), Key(o1.price, o1.timestamp)), o1);
    BareInsert(q2, Position(buy, OrdKeys(q2), Key(o2.price, o2.timestamp)), o2);
  }

  lemma SameInsert(buy: bool, h1: Half, h2: Half, o1: Ord, o2: Ord)
    requires SameHalf(h1, h2) && Bare(o1) == Bare(o2) && NoLater(h1.queue, o1) && NoLater(h2.queue, o2)
    ensures SameHalf(WithOrder(buy, h1, o1), WithOrder(buy, h2, o2))
  {
    BareQueueInsert(buy, h1.queue, h2.queue, o1, o2);
    assert Bare(o1).price == o1.price && Bare(o2).price == o2.price && Bare(o1).remaining == Bare(o2).remaining;
  }

  lemma BareInsert(q: seq<Ord>, n: nat, o: Ord)
    requires n <= |q|
    ensures BareAll(InsertAt(q, n, o)) == InsertAt(BareAll(q), n, Bare(o))
  {
  }

  lemma BareWithout(q: seq<Ord>, i: nat)
    requires i < |q|
    ensures BareAll(Without(q, i)) == Without(BareAll(q), i)
  {
  }

  lemma BareAllConcat(a: seq<Ord>, b: seq<Ord>)
    ensures BareAll(a + b) == BareAll(a) + BareAll(b)
  {
  }

  lemma BareTradesConcat(a: seq<Trade>, b: seq<Trade>)
    ensures BareTrades(a + b) == BareTrades(a) + BareTrades(b)
  {
  }

  // ---- Matching -------------------------------------------------------------------------------

  lemma SameAfter(h1: Half, h2: Half, out1: Outcome, out2: Outcome)
    requires SameHalf(h1, h2) && SameOutcome(out1, out2)
    ensures SameHalf(AfterMatch(h1, out1), AfterMatch(h2, out2))
  {
    TakeAllBare(h1.totals, out1.gone);
    TakeAllBare(h2.totals, out2.gone);
    AddFillsBare(h1.since, out1.fills);
    AddFillsBare(h2.since, out2.fills);
  }

  /** Makers stamped with smaller sequence numbers than the taker. */
  ghost predicate Newest(taker: Ord, f: seq<Fill>) {
    forall i :: 0 <= i < |f| ==> f[i].maker.sequence < taker.sequence
  }

  lemma SameTrades(w1: World, w2: World, t1: Ord, t2: Ord, f1: seq<Fill>, f2: seq<Fill>, n: nat, k: nat)
    requires w1.instrument == w2.instrument && Bare(t1) == Bare(t2) && BareFills(f1) == BareFills(f2)
    requires Newest(t1, f1) && Newest(t2, f2)
    ensures BareTrades(TradesOf(w1, t1, f1, n, k)) == BareTrades(TradesOf(w2, t2, f2, n, k))
  {
    assert |BareFills(f1)| == |f1| && |BareFills(f2)| == |f2|;
    var a, b := BareTrades(TradesOf(w1, t1, f1, n, k)), BareTrades(TradesOf(w2, t2, f2, n, k));
    forall i | 0 <= i < |f1| ensures a[i] == b[i] {
      assert BareFills(f1)[i] == BareFills(f2)[i];
      SameTrade(w1.instrument, t1, t2, f1[i], f2[i], n + 1 + i, w1.clock(k + i), w2.clock(k + i));
    }
  }

  lemma SameTrade(instrument: nat, t1: Ord, t2: Ord, f1: Fill, f2: Fill, n: nat, now1: int, now2: int)
    requires Bare(t1) == Bare(t2) && Bare(f1.maker) == Bare(f2.maker) && f1.quantity == f2.quantity
    requires f1.maker.sequence < t1.sequence && f2.maker.sequence < t2.sequence
    ensures TradeOf(instrument, t1, f1, n, now1).(timestamp := 0)
      == TradeOf(instrument, t2, f2, n, now2).(timestamp := 0)
  {
    assert Bare(t1).side == t1.side && Bare(t2).side == t2.side && Bare(t1).id == t1.id && Bare(t2).id == t2.id;
    assert Bare(t1).user == t1.user && Bare(t2).user == t2.user;
    var m1, m2 := Bare(f1.maker), Bare(f2.maker);
    assert m1.id == f1.maker.id && m2.id == f2.maker.id && m1.user == f1.maker.user && m2.user == f2.maker.user;
    assert m1.price == f1.maker.price && m2.price == f2.maker.price;
  }

  lemma SoundResting(taker: Ord, q: seq<Ord>, side: Side, n: nat, now: int)
    requires QueueSound(q, side, n, now) && side == taker.side.Opposite()
    ensures Resting(taker, q) && Live(q)
    ensures forall i :: 0 <= i < |q| ==> q[i].sequence <= n && q[i].timestamp <= now && q[i].Active()
  {
    forall i | 0 <= i < |q|
      ensures q[i].side == side && q[i].typ.Limit? && q[i].price > 0 && q[i].Active() && q[i].sequence <= n
      ensures q[i].remaining > 0 && q[i].timestamp <= now
    {
      assert Sound(q[i], side, n, now);
    }
  }

  lemma FillsNewest(rule: Rule, taker: Ord, q: seq<Ord>, fuel: nat, n: nat)
    requires Live(q) && taker.remaining >= 0 && n < taker.sequence
    requires forall i :: 0 <= i < |q| ==> q[i].sequence <= n
    ensures Newest(taker, Match(rule, taker, q, fuel).fills)
  {
    MatchIsGreedy(rule, taker, q, fuel);
  }

  lemma SameMatchOf(w1: World, w2: World, s1: State, s2: State, o: Ord)
    requires SameMarket(s1, s2) && BookSound(w1, s1) && BookSound(w2, s2) && o.remaining >= 0
    ensures SameOutcome(MatchOf(w1, s1, o), MatchOf(w2, s2, o))
    ensures Newest(Arrived(w1, s1, o), MatchOf(w1, s1, o).fills) && Newest(Arrived(w2, s2, o), MatchOf(w2, s2, o).fills)
  {
    var side, a1, a2 := o.side.Opposite(), Arrived(w1, s1, o), Arrived(w2, s2, o);
    var q1, q2 := s1.Side(side).queue, s2.Side(side).queue;
    SoundResting(a1, q1, side, s1.sequence, w1.clock(s1.tick));
    SoundResting(a2, q2, side, s2.sequence, w2.clock(s2.tick));
    MatchAgrees(Classic, Classic, a1, a2, q1, q2, MAX_ITERATIONS);
    FillsNewest(Classic, a1, q1, MAX_ITERATIONS, s1.sequence);
    FillsNewest(Classic, a2, q2, MAX_ITERATIONS, s2.sequence);
  }

  lemma SameMatched(w1: World, w2: World, s1: State, s2: State, o: Ord)
    requires SameMarket(s1, s2) && BookSound(w1, s1) && BookSound(w2, s2) && o.remaining >= 0
    requires w1.instrument == w2.instrument
    ensures SameMarket(Matched(w1, s1, o), Matched(w2, s2, o))
  {
    var side, out1, out2 := o.side.Opposite(), MatchOf(w1, s1, o), MatchOf(w2, s2, o);
    SameMatchOf(w1, w2, s1, s2, o);
    SameAfter(s1.Side(side), s2.Side(side), out1, out2);
    DisownBare(s1.owned, out1.gone, out2.gone);
    DropAllBare(s1.users, out1.gone);
    DropAllBare(s2.users, out2.gone);
    VolumeBare(out1.fills);
    VolumeBare(out2.fills);
    assert |BareFills(out1.fills)| == |out1.fills| && |BareFills(out2.fills)| == |out2.fills|;
    SameTape(w1, w2, s1, s2, o);
    BareAllConcat(s1.done, out1.gone);
    BareAllConcat(s2.done, out2.gone);
  }

  lemma SameTape(w1: World, w2: World, s1: State, s2: State, o: Ord)
    requires SameMarket(s1, s2) && w1.instrument == w2.instrument
    requires SameOutcome(MatchOf(w1, s1, o), MatchOf(w2, s2, o))
    requires Newest(Arrived(w1, s1, o), MatchOf(w1, s1, o).fills)
      && Newest(Arrived(w2, s2, o), MatchOf(w2, s2, o).fills)
    ensures BareTrades(s1.tape + NewTrades(w1, s1, o)) == BareTrades(s2.tape + NewTrades(w2, s2, o))
  {
    SameTrades(w1, w2, Arrived(w1, s1, o), Arrived(w2, s2, o), MatchOf(w1, s1, o).fills, MatchOf(w2, s2, o).fills,
               s1.sequence + 1, s1.tick + 1);
    BareTradesConcat(s1.tape, NewTrades(w1, s1, o));
    BareTradesConcat(s2.tape, NewTrades(w2, s2, o));
  }

  // ---- Steps ----------------------------------------------------------------------------------

  lemma SameTaker(w1: World, w2: World, s1: State, s2: State, o: Ord)
    requires SameMarket(s1, s2) && BookSound(w1, s1) && BookSound(w2, s2) && Acceptable(w1, o) && Fresh(o)
    ensures Bare(TakerAfter(w1, s1, o)) == Bare(TakerAfter(w2, s2, o))
    ensures Rests(TakerAfter(w1, s1, o)) <==> Rests(TakerAfter(w2, s2, o))
  {
    var side, a1, a2 := o.side.Opposite(), Arrived(w1, s1, o), Arrived(w2, s2, o);
    var t1, t2 := MatchOf(w1, s1, o).taker, MatchOf(w2, s2, o).taker;
    SameMatchOf(w1, w2, s1, s2, o);
    MatchKeepsTerms(Classic, a1, s1.Side(side).queue, MAX_ITERATIONS);
    MatchKeepsTerms(Classic, a2, s2.Side(side).queue, MAX_ITERATIONS);
    assert Bare(t1).remaining == t1.remaining && Bare(t2).remaining == t2.remaining;
    assert Bare(t1).filled == t1.filled && Bare(t2).filled == t2.filled;
    if o.typ.Limit? {
      MatchKeepsStatus(Classic, a1, s1.Side(side).queue, MAX_ITERATIONS);
      MatchKeepsStatus(Classic, a2, s2.Side(side).queue, MAX_ITERATIONS);
    }
  }

  lemma SamePlaced(s1: State, s2: State, o1: Ord, o2: Ord)
    requires SameMarket(s1, s2) && Bare(o1) == Bare(o2) && (Rests(o1) <==> Rests(o2))
    requires NoLater(s1.Side(o1.side).queue, o1) && NoLater(s2.Side(o2.side).queue, o2)
    ensures SameMarket(Placed(s1, o1), Placed(s2, o2))
  {
    assert Bare(o1).side == o1.side && Bare(o2).side == o2.side && Bare(o1).id == o1.id && Bare(o2).id == o2.id;
    assert Bare(o1).user == o1.user && Bare(o2).user == o2.user;
    if Rests(o1) {
      SameInsert(o1.side.Buy?, s1.Side(o1.side), s2.Side(o2.side), o1, o2);
      HasIdBare(s1.Side(o1.side).queue, o1.id);
      HasIdBare(s2.Side(o2.side).queue, o2.id);
    } else {
      BareAllConcat(s1.done, [o1]);
      BareAllConcat(s2.done, [o2]);
    }
  }

  /** The queue a newcomer may join holds nobody stamped later. */
  lemma QueueNoLater(w: World, s: State, o: Ord)
    requires BookSound(w, s) && Acceptable(w, o) && Fresh(o)
    ensures TakerAfter(w, s, o).side == o.side
    ensures NoLater(Matched(w, s, o).Side(o.side).queue, TakerAfter(w, s, o))
  {
    MatchKeepsTerms(Classic, Arrived(w, s, o), s.Side(o.side.Opposite()).queue, MAX_ITERATIONS);
    var q := s.Side(o.side).queue;
    forall i | 0 <= i < |q| ensures q[i].timestamp <= w.clock(s.tick) {
      assert Sound(q[i], o.side, s.sequence, w.clock(s.tick));
    }
  }

  lemma SameProcess(w1: World, w2: World, s1: State, s2: State, o: Ord)
    requires BothNeverBackwards(w1, w2) && SameMarket(s1, s2) && BookSound(w1, s1) && BookSound(w2, s2) && Fresh(o)
    ensures SameMarket(Process(w1, s1, o), Process(w2, s2, o))
  {
    if Acceptable(w1, o) {
      SameMatched(w1, w2, s1, s2, o);
      SameTaker(w1, w2, s1, s2, o);
      QueueNoLater(w1, s1, o);
      QueueNoLater(w2, s2, o);
      SamePlaced(Matched(w1, s1, o), Matched(w2, s2, o), TakerAfter(w1, s1, o), TakerAfter(w2, s2, o));
    }
  }

  lemma SameRemoved(s1: State, s2: State, side: Side, i: nat)
    requires SameMarket(s1, s2) && i < |s1.Side(side).queue|
    ensures i < |s2.Side(side).queue| && SameMarket(Removed(s1, side, i), Removed(s2, side, i))
  {
    var q1, q2 := s1.Side(side).queue, s2.Side(side).queue;
    BareAt(q1, q2);
    BareWithout(q1, i);
    BareWithout(q2, i);
    var o1, o2 := q1[i].(status := Cancelled), q2[i].(status := Cancelled);
    assert Bare(q1[i]) == Bare(o1) && Bare(q2[i]) == Bare(o2);
    assert Bare(o1).id == o1.id && Bare(o2).id == o2.id && Bare(o1).user == o1.user && Bare(o2).user == o2.user;
    assert Bare(o1).price == o1.price && Bare(o2).price == o2.price;
    assert Bare(o1).remaining == o1.remaining && Bare(o2).remaining == o2.remaining;
    BareAllConcat(s1.done, [o1]);
    BareAllConcat(s2.done, [o2]);
  }

  lemma SameFound(q1: seq<Ord>, q2: seq<Ord>, id: nat, user: nat)
    requires BareAll(q1) == BareAll(q2)
    requires forall i :: 0 <= i < |q1| ==> q1[i].Active()
    requires forall i :: 0 <= i < |q2| ==> q2[i].Active()
    ensures HasId(q1, id) <==> HasId(q2, id)
    ensures HasId(q1, id) ==> IndexOf(q1, id) == IndexOf(q2, id)
    ensures HasId(q1, id) ==> (Cancellable(q1[IndexOf(q1, id)], user) <==> Cancellable(q2[IndexOf(q2, id)], user))
  {
    BareAt(q1, q2);
    HasIdBare(q1, id);
    HasIdBare(q2, id);
    if HasId(q1, id) {
      IndexOfBare(q1, id);
      IndexOfBare(q2, id);
      var i := IndexOf(q1, id);
      assert Bare(q1[i]).user == q1[i].user && Bare(q2[i]).user == q2[i].user;
    }
  }

  lemma BookActive(w: World, s: State)
    requires BookSound(w, s)
    ensures forall i :: 0 <= i < |s.bids.queue| ==> s.bids.queue[i].Active()
    ensures forall i :: 0 <= i < |s.asks.queue| ==> s.asks.queue[i].Active()
  {
    assert forall i :: 0 <= i < |s.bids.queue| ==> Sound(s.bids.queue[i], Buy, s.sequence, w.clock(s.tick));
    assert forall i :: 0 <= i < |s.asks.queue| ==> Sound(s.asks.queue[i], Sell, s.sequence, w.clock(s.tick));
  }

  lemma SameCancel(w1: World, w2: World, s1: State, s2: State, id: nat, user: nat)
    requires SameMarket(s1, s2) && BookSound(w1, s1) && BookSound(w2, s2)
    ensures SameMarket(Cancel(s1, id, user), Cancel(s2, id, user))
  {
    BookActive(w1, s1);
    BookActive(w2, s2);
    SameFound(s1.bids.queue, s2.bids.queue, id, user);
    SameFound(s1.asks.queue, s2.asks.queue, id, user);
    if HasId(s1.bids.queue, id) {
      SameRemoved(s1, s2, Buy, IndexOf(s1.bids.queue, id));
    } else if HasId(s1.asks.queue, id) {
      SameRemoved(s1, s2, Sell, IndexOf(s1.asks.queue, id));
    }
  }

  lemma {:induction false} SameCancelEach(w1: World, w2: World, s1: State, s2: State, ids: seq<nat>, user: nat)
    requires SameMarket(s1, s2) && BookSound(w1, s1) && BookSound(w2, s2)
    ensures SameMarket(CancelEach(s1, ids, user), CancelEach(s2, ids, user))
  {
    if ids != [] {
      var init := ids[..|ids| - 1];
      SameCancelEach(w1, w2, s1, s2, init, user);
      CancelEachKeeps(w1, s1, init, user);
      CancelEachKeeps(w2, s2, init, user);
      SameCancel(w1, w2, CancelEach(s1, init, user), CancelEach(s2, init, user), ids[|ids| - 1], user);
    }
  }

  lemma SameStep(w1: World, w2: World, s1: State, s2: State, op: Op)
    requires BothNeverBackwards(w1, w2) && SameMarket(s1, s2) && BookSound(w1, s1) && BookSound(w2, s2)
    requires op.Place? ==> Fresh(op.order)
    ensures SameMarket(Step(w1, s1, op), Step(w2, s2, op))
  {
    match op
    case Place(o) => SameProcess(w1, w2, s1, s2, o);
    case CancelOne(id, user) => SameCancel(w1, w2, s1, s2, id, user);
    case CancelUser(user) =>
      if user in s1.users { SameCancelEach(w1, w2, s1, s2, s1.users[user], user); }
  }

  /** The same operations under any two clocks that never run backwards give the same market: same
      books, same trades, same indexes, whatever the timestamps. */
  lemma {:induction false} RunsAgree(w1: World, w2: World, ops: seq<Op>)
    requires BothNeverBackwards(w1, w2) && NewOrders(ops)
    ensures SameMarket(Run(w1, ops), Run(w2, ops))
  {
    if ops != [] {
      var init := ops[..|ops| - 1];
      assert forall i :: 0 <= i < |init| ==> init[i] == ops[i];
      RunsAgree(w1, w2, init);
      RunHolds(w1, init);
      RunHolds(w2, init);
      SameStep(w1, w2, Run(w1, init), Run(w2, init), ops[|ops| - 1]);
    }
  }
}
