/** The matching engine: its loop over the best resting orders, and its indexes, updated in place. */
module Engine {
  import opened Orders
  import opened Priority
  import opened PriceLevels
  import opened Matching
  import opened Market
  import opened MarketIndex
  import opened BookSides

  /** The loop has nothing more to do. */
  lemma NothingMore(rule: Rule, acc: Outcome, fuel: nat)
    requires Stops(rule, acc.taker, acc.book, fuel)
    ensures Then(acc, Match(rule, acc.taker, acc.book, fuel)) == acc
  {
  }

  lemma ThenOnce(rule: Rule, acc: Outcome, fuel: nat)
    requires !Stops(rule, acc.taker, acc.book, fuel)
    ensures var once := TradeOnce(rule, acc.taker, acc.book); var acc' := Then(acc, once);
      Then(acc, Match(rule, acc.taker, acc.book, fuel))
      == if OneShot(rule, acc.taker) then acc' else Then(acc', Match(rule, acc'.taker, acc'.book, fuel - 1))
  {
    var once := TradeOnce(rule, acc.taker, acc.book);
    if !OneShot(rule, acc.taker) {
      ThenAssociative(acc, once, Match(rule, once.taker, once.book, fuel - 1));
    }
  }

  /** After `iterations` turns the loop has done `acc` and is heading for `target`, or has stopped there. */
  ghost predicate Heading(rule: Rule, target: Outcome, acc: Outcome, iterations: nat, stop: bool) {
    && iterations <= MAX_ITERATIONS
    && target == if stop then acc else Then(acc, Match(rule, acc.taker, acc.book, MAX_ITERATIONS - iterations))
  }

  lemma HeadingOnce(rule: Rule, target: Outcome, acc: Outcome, iterations: nat, stop: bool)
    requires Heading(rule, target, acc, iterations, false)
      && !Stops(rule, acc.taker, acc.book, MAX_ITERATIONS - iterations)
    requires var once := TradeOnce(rule, acc.taker, acc.book);
      stop ==> (once.gone != [] && once.book == []) || OneShot(rule, acc.taker)
    requires OneShot(rule, acc.taker) ==> stop
    ensures Heading(rule, target, Then(acc, TradeOnce(rule, acc.taker, acc.book)), iterations + 1, stop)
  {
    var once, fuel := TradeOnce(rule, acc.taker, acc.book), MAX_ITERATIONS - iterations;
    ThenOnce(rule, acc, fuel);
    if once.book == [] { NothingMore(rule, Then(acc, once), fuel - 1); }
  }

  lemma HeadingOver(rule: Rule, target: Outcome, acc: Outcome, iterations: nat)
    requires Heading(rule, target, acc, iterations, false)
      && Stops(rule, acc.taker, acc.book, MAX_ITERATIONS - iterations)
    ensures target == acc
  {
    NothingMore(rule, acc, MAX_ITERATIONS - iterations);
  }

  lemma ThenAssociative(a: Outcome, b: Outcome, c: Outcome)
    ensures Then(a, Then(b, c)) == Then(Then(a, b), c)
  {
    assert a.fills + (b.fills + c.fills) == (a.fills + b.fills) + c.fills;
    assert a.gone + (b.gone + c.gone) == (a.gone + b.gone) + c.gone;
  }

  /** From `s` to `s'` the side `side` saw the trade `once` of `taker`, and nothing else happened. */
  ghost predicate Turned(w: World, s: State, s': State, side: Side, taker: Ord, once: Outcome)
    requires once.fills != []
  {
    var h, h' := s.Side(side), s'.Side(side);
    && h'.queue == once.book && s'.Side(side.Opposite()) == s.Side(side.Opposite())
    && s'.count == s.count + 1 && s'.volume == s.volume + once.fills[0].quantity
    && s'.sequence == s.sequence + 1 && s'.tick == s.tick + 1
    && Taped(w, s, s', taker, once.fills[0])
    && s'.done == s.done + once.gone
    && (once.gone == [] ==> h'.totals == h.totals && s'.owned == s.owned && s'.users == s.users)
    && (once.gone != [] ==>
          && h'.totals == TakeFrom(h.totals, once.gone[0].price, once.gone[0].remaining)
          && s'.owned == s.owned - {once.gone[0].id} && s'.users == DropId(s.users, once.gone[0].user, once.gone[0].id))
  }

  ghost predicate SameParty(a: Ord, b: Ord) {
    a.id == b.id && a.user == b.user && a.side == b.side && a.sequence == b.sequence
  }

  lemma TapeSummed(w: World, s: State, o: Ord, f: seq<Fill>, taker: Ord, x: Fill)
    requires SameParty(taker, Arrived(w, s, o))
    ensures s.tape + Printed(w, s, o, f + [x])
         == s.tape + Printed(w, s, o, f)
            + [TradeOf(w.instrument, taker, x, s.sequence + 1 + |f| + 1, w.clock(s.tick + 1 + |f|))]
  {
    var n, k := s.sequence + 1, s.tick + 1;
    TradesOfAppend(w, Arrived(w, s, o), f, x, n, k);
    SameTradeOf(w.instrument, taker, Arrived(w, s, o), x, n + |f| + 1, w.clock(k + |f|));
  }

  lemma IndexesSummed(t: map<int, int>, owned: set<nat>, users: map<nat, seq<nat>>, done: seq<Ord>, gone: seq<Ord>,
      g: Ord)
    ensures done + (gone + [g]) == done + gone + [g]
    ensures TakeAll(t, gone + [g]) == TakeFrom(TakeAll(t, gone), g.price, g.remaining)
    ensures Disown(owned, gone + [g]) == Disown(owned, gone) - {g.id}
    ensures DropAll(users, gone + [g]) == DropId(DropAll(users, gone), g.user, g.id)
  {
    assert (gone + [g])[..|gone|] == gone;
    DisownAppend(owned, gone, g);
  }

  /** The tape of `s'` is that of `s` with the trade `f` of `taker` added. */
  ghost predicate Taped(w: World, s: State, s': State, taker: Ord, f: Fill) {
    s'.tape == s.tape + [TradeOf(w.instrument, taker, f, s.sequence + 1, w.clock(s.tick))]
  }

  lemma SummaryTape(w: World, s: State, o: Ord, acc: Outcome, once: Outcome)
    requires |once.fills| == 1 && SameParty(acc.taker, Arrived(w, s, o))
    ensures var a, b := AfterTrades(w, s, o, acc), AfterTrades(w, s, o, Then(acc, once));
      Taped(w, a, b, acc.taker, once.fills[0])
  {
    var x := once.fills[0];
    assert once.fills == [x];
    TapeSummed(w, s, o, acc.fills, acc.taker, x);
  }

  lemma {:induction false} GoneFromBook(rule: Rule, taker: Ord, q: seq<Ord>, fuel: nat, id: nat)
    requires HasId(Match(rule, taker, q, fuel).gone, id)
    ensures HasId(q, id)
    decreases fuel
  {
    if !Stops(rule, taker, q, fuel) {
      var once := TradeOnce(rule, taker, q);
      if !HasId(once.gone, id) && !OneShot(rule, taker) {
        var rest := Match(rule, once.taker, once.book, fuel - 1);
        var i :| 0 <= i < |once.gone + rest.gone| && (once.gone + rest.gone)[i].id == id;
        assert rest.gone[i - |once.gone|].id == id;
        GoneFromBook(rule, once.taker, once.book, fuel - 1, id);
        var k :| 0 <= k < |once.book| && once.book[k].id == id;
        assert q[|once.gone| + k].id == id;
      } else {
        assert q[0].id == id;
      }
    }
  }

  /** After matching, an id on the order's own side is still in the order map if it was before. */
  lemma MatchedFree(w: World, s: State, o: Ord)
    ensures var s' := Matched(w, s, o);
      && s'.Side(o.side) == s.Side(o.side)
      && (o.id in s.owned && !HasId(s.Side(o.side.Opposite()).queue, o.id) ==> o.id in s'.owned)
      && s'.owned <= s.owned
  {
    var out := MatchOf(w, s, o);
    if HasId(out.gone, o.id) {
      GoneFromBook(Classic, Arrived(w, s, o), s.Side(o.side.Opposite()).queue, MAX_ITERATIONS, o.id);
    }
  }

  /** Taking out an order does not depend on its status. */
  lemma WithoutMarked(h: Half, i: nat)
    requires i < |h.queue|
    ensures WithoutOrder(h.(queue := h.queue[i := h.queue[i].(status := Cancelled)]), i) == WithoutOrder(h, i)
  {
    assert Without(h.queue[i := h.queue[i].(status := Cancelled)], i) == Without(h.queue, i);
  }

  lemma ThenStarts(none: Outcome, rest: Outcome)
    requires none.fills == [] && none.gone == []
    ensures Then(none, rest) == rest
  {
    assert [] + rest.fills == rest.fills && [] + rest.gone == rest.gone;
  }

  /** Before the first trade. */
  lemma SummaryStarts(w: World, s: State, o: Ord)
    ensures var side := o.side.Opposite();
      var b := AfterTrades(w, s, o, Outcome(Arrived(w, s, o), s.Side(side).queue, [], []));
      && Printed(w, s, o, []) == []
      && b == s.(sequence := s.sequence + 1, tick := s.tick + 1)
               .WithSide(side, s.Side(side).(since := b.Side(side).since))
  {
    assert s.tape + [] == s.tape && s.done + [] == s.done;
  }

  lemma SummaryVolume(w: World, s: State, o: Ord, acc: Outcome, once: Outcome)
    requires |once.fills| == 1
    ensures AfterTrades(w, s, o, Then(acc, once)).volume == AfterTrades(w, s, o, acc).volume + once.fills[0].quantity
  {
    assert once.fills == [once.fills[0]];
    VolumeAppend(acc.fills, once.fills[0]);
  }

  lemma SummaryGone(w: World, s: State, o: Ord, acc: Outcome, once: Outcome)
    requires |once.gone| == 1
    ensures var a, b, g := AfterTrades(w, s, o, acc), AfterTrades(w, s, o, Then(acc, once)), once.gone[0];
      var side := o.side.Opposite();
      && b.Side(side).totals == TakeFrom(a.Side(side).totals, g.price, g.remaining)
      && b.owned == a.owned - {g.id} && b.users == DropId(a.users, g.user, g.id) && b.done == a.done + once.gone
  {
    assert once.gone == [once.gone[0]];
    IndexesSummed(s.Side(o.side.Opposite()).totals, s.owned, s.users, s.done, acc.gone, once.gone[0]);
  }

  lemma SummaryNoneGone(w: World, s: State, o: Ord, acc: Outcome, once: Outcome)
    requires once.gone == []
    ensures var a, b := AfterTrades(w, s, o, acc), AfterTrades(w, s, o, Then(acc, once));
      var side := o.side.Opposite();
      && b.Side(side).totals == a.Side(side).totals
      && b.owned == a.owned && b.users == a.users && b.done == a.done + once.gone
  {
    assert acc.gone + once.gone == acc.gone;
  }

  /** One more trade of the loop is one more step of its summary. */
  lemma SummaryTurns(w: World, s: State, o: Ord, acc: Outcome, once: Outcome)
    requires |once.fills| == 1 && |once.gone| <= 1 && SameParty(acc.taker, Arrived(w, s, o))
    ensures Turned(w, AfterTrades(w, s, o, acc), AfterTrades(w, s, o, Then(acc, once)), o.side.Opposite(), acc.taker,
      once)
  {
    SummaryVolume(w, s, o, acc, once);
    SummaryTape(w, s, o, acc, once);
    if once.gone == [] {
      SummaryNoneGone(w, s, o, acc, once);
    } else {
      SummaryGone(w, s, o, acc, once);
    }
  }

  lemma PrintedOnce(w: World, s: State, o: Ord, acc: Outcome, once: Outcome)
    requires |once.fills| == 1 && SameParty(acc.taker, Arrived(w, s, o))
    ensures var a := AfterTrades(w, s, o, acc);
      Printed(w, s, o, acc.fills + once.fills)
      == Printed(w, s, o, acc.fills)
        + [TradeOf(w.instrument, acc.taker, once.fills[0], a.sequence + 1, w.clock(a.tick))]
  {
    var x, n, k := once.fills[0], s.sequence + 1, s.tick + 1;
    assert once.fills == [x];
    TradesOfAppend(w, Arrived(w, s, o), acc.fills, x, n, k);
    SameTradeOf(w.instrument, acc.taker, Arrived(w, s, o), x, n + |acc.fills| + 1, w.clock(k + |acc.fills|));
  }

  /** A turn leaves only the record of traded volume open. */
  lemma TurnSettles(w: World, s: State, a: State, b: State, side: Side, taker: Ord, once: Outcome)
    requires once.fills != [] && Turned(w, s, a, side, taker, once) && Turned(w, s, b, side, taker, once)
    ensures a.WithSide(side, a.Side(side).(since := b.Side(side).since)) == b
  {
  }

  lemma TradesOfAppend(w: World, taker: Ord, f: seq<Fill>, x: Fill, n: nat, k: nat)
    ensures TradesOf(w, taker, f + [x], n, k)
         == TradesOf(w, taker, f, n, k) + [TradeOf(w.instrument, taker, x, n + 1 + |f|, w.clock(k + |f|))]
  {
  }

  lemma {:induction false} VolumeAppend(f: seq<Fill>, x: Fill)
    ensures Volume(f + [x]) == Volume(f) + x.quantity
  {
    if f == [] {
      assert [x][1..] == [];
    } else {
      assert (f + [x])[1..] == f[1..] + [x];
      VolumeAppend(f[1..], x);
    }
  }

  lemma DisownAppend(owned: set<nat>, gone: seq<Ord>, x: Ord)
    ensures Disown(owned, gone + [x]) == Disown(owned, gone) - {x.id}
  {
    var more := gone + [x];
    assert forall i :: 0 <= i < |gone| ==> more[i] == gone[i];
    assert more[|gone|] == x;
  }

  /** The same trade, whatever has been traded of the taker before it. */
  lemma SameTradeOf(instrument: nat, a: Ord, b: Ord, f: Fill, n: nat, now: int)
    requires SameParty(a, b)
    ensures TradeOf(instrument, a, f, n, now) == TradeOf(instrument, b, f, n, now)
  {
  }

  /** After a turn the state is the summary with the turn's trade in it, but for the record of volume. */
  lemma SummaryAdvances(w: World, s: State, o: Ord, acc: Outcome, once: Outcome, s': State)
    requires |once.fills| == 1 && |once.gone| <= 1 && SameParty(acc.taker, Arrived(w, s, o))
    requires Turned(w, AfterTrades(w, s, o, acc), s', o.side.Opposite(), acc.taker, once)
    ensures var after, side, a := AfterTrades(w, s, o, Then(acc, once)), o.side.Opposite(), AfterTrades(w, s, o, acc);
      && s'.WithSide(side, s'.Side(side).(since := after.Side(side).since)) == after
      && Printed(w, s, o, acc.fills + once.fills)
         == Printed(w, s, o, acc.fills)
           + [TradeOf(w.instrument, acc.taker, once.fills[0], a.sequence + 1, w.clock(a.tick))]
  {
    SummaryTurns(w, s, o, acc, once);
    TurnSettles(w, AfterTrades(w, s, o, acc), s', AfterTrades(w, s, o, Then(acc, once)), o.side.Opposite(), acc.taker,
      once);
    PrintedOnce(w, s, o, acc, once);
  }

  class MatchingEngine {
    const world: World
    const bids: BookSide
    const asks: BookSide
    var orders: map<nat, Order>
    var users: map<nat, seq<nat>>
    var totalTrades: nat
    var totalVolume: int
    var tradeSequence: nat
    var tick: nat
    ghost var tape: seq<Trade>
    ghost var done: seq<Ord>

    constructor (world: World)
      ensures this.world == world && Valid() && Pointers() && Abs() == EMPTY && fresh(bids) && fresh(asks)
    {
      this.world := world;
      bids := new BookSide(Buy);
      asks := new BookSide(Sell);
      orders, users, totalTrades, totalVolume, tradeSequence, tick := map[], map[], 0, 0, 0, 0;
      tape, done := [], [];
    }

    function SideOf(side: Side): BookSide { if side.Buy? then bids else asks }

    ghost predicate Valid()
      reads bids, asks, bids.queue`filled, bids.queue`remaining, bids.queue`status, bids.queue`timestamp,
            bids.queue`sequence,
            asks.queue`filled, asks.queue`remaining, asks.queue`status, asks.queue`timestamp, asks.queue`sequence
    {
      bids != asks && bids.side == Buy && asks.side == Sell && bids.Valid() && asks.Valid()
    }

    /** The order map points to orders of the book, each under its own id. */
    ghost predicate Pointers()
      reads this`orders, bids`queue, asks`queue
    {
      forall id :: id in orders ==> orders[id].id == id && (orders[id] in bids.queue || orders[id] in asks.queue)
    }

    ghost function Abs(): State
      reads this, bids, asks
    {
      State(bids.Half(), asks.Half(), orders.Keys, users, totalTrades, totalVolume, tradeSequence, tick, tape, done)
    }

    predicate Validate(order: Order) {
      order.instrument == world.instrument && order.quantity > 0 && (order.price > 0 || order.typ != Limit)
    }

    predicate CanOrdersMatch(order: Order, resting: Order) {
      if order.side == resting.side then false
      else
        var buy, sell := if order.side.Buy? then order else resting, if order.side.Buy? then resting else order;
        buy.typ.Market? || sell.typ.Market? || buy.price >= sell.price
    }

    method ExecuteTrade(order: Order, resting: Order, quantity: int)
      requires order != resting
      modifies order`filled, order`remaining, resting`filled, resting`remaining
      ensures order.View() == Traded(old(order.View()), quantity)
      ensures resting.View() == Traded(old(resting.View()), quantity)
    {
      var buy := if order.side.Buy? then order else resting;
      var sell := if order.side.Buy? then resting else order;
      buy.filled := buy.filled + quantity;
      buy.remaining := buy.remaining - quantity;
      sell.filled := sell.filled + quantity;
      sell.remaining := sell.remaining - quantity;
    }

    method CreateTrade(order: Order, resting: Order, quantity: int) returns (trade: Trade)
      modifies this`tick, this`tradeSequence
      ensures tick == old(tick) + 1 && tradeSequence == old(tradeSequence) + 1
      ensures trade == TradeOf(world.instrument, order.View(), Fill(resting.View(), quantity), tradeSequence,
        world.clock(old(tick)))
    {
      var buy := if order.side.Buy? then order else resting;
      var sell := if order.side.Buy? then resting else order;
      tradeSequence := tradeSequence + 1;
      trade := Trade(buy.id, sell.id, buy.user, sell.user, world.instrument, resting.price, quantity,
                     world.clock(tick), tradeSequence, buy.sequence > sell.sequence);
      tick := tick + 1;
    }

    method RemoveOrderFromBook(order: Order, ghost i: nat)
      requires Valid() && Pointers() && i < |SideOf(order.side).queue| && SideOf(order.side).queue[i] == order
      modifies SideOf(order.side), this`orders, this`users
      ensures Valid() && Pointers() && SideOf(order.side).queue == Without(old(SideOf(order.side).queue), i)
      ensures SideOf(order.side).Half() == WithoutOrder(old(SideOf(order.side).Half()), i)
      ensures orders == old(orders) - {order.id} && users == DropId(old(users), order.user, order.id)
    {
      SideOf(order.side).Remove(order, i);
      orders := orders - {order.id};
      ForgetUser(order.user, order.id);
    }

    /** Take the id out of the user's list, and the list away when it was the last. */
    method ForgetUser(user: nat, id: nat)
      modifies this`users
      ensures users == DropId(old(users), user, id) && orders == old(orders)
    {
      if user in users {
        var ids := Strip(users[user], id);
        if ids == [] {
          users := users - {user};
        } else {
          users := users[user := ids];
        }
      }
    }

    /** The order is in neither queue. */
    ghost predicate Outside(order: Order)
      reads bids`queue, asks`queue
    {
      order !in bids.queue && order !in asks.queue
    }

    /** Execute a trade with the best resting order, and keep the book's record in step. */
    method Move(order: Order, resting: Order, quantity: int)
      requires Valid() && Outside(order) && SideOf(order.side.Opposite()).queue != []
      requires SideOf(order.side.Opposite()).queue[0] == resting
      modifies SideOf(order.side.Opposite())`view, order`filled, order`remaining, resting`filled, resting`remaining
      ensures Valid() && order.View() == Traded(old(order.View()), quantity)
      ensures resting.View() == Traded(old(resting.View()), quantity)
      ensures SideOf(order.side.Opposite()).view == [resting.View()] + old(SideOf(order.side.Opposite()).view)[1..]
      ensures bids.queue == old(bids.queue) && asks.queue == old(asks.queue)
      ensures SideOf(order.side.Opposite()).totals == old(SideOf(order.side.Opposite()).totals)
      ensures SideOf(order.side).Half() == old(SideOf(order.side).Half())
    {
      ExecuteTrade(order, resting, quantity);
      SideOf(order.side.Opposite()).Follow(resting);
    }

    /** Trade with the best resting order and record the trade. */
    method Exchange(order: Order, resting: Order) returns (trade: Trade)
      requires Valid() && Outside(order) && SideOf(order.side.Opposite()).queue != []
      requires SideOf(order.side.Opposite()).queue[0] == resting
      modifies this`totalTrades, this`totalVolume, this`tradeSequence, this`tick, this`tape,
               SideOf(order.side.Opposite())`view, order`filled, order`remaining, resting`filled, resting`remaining
      ensures Valid()
      ensures var opposite := SideOf(order.side.Opposite());
        var taker, maker := old(order.View()), old(SideOf(order.side.Opposite()).view)[0];
        var q := Min(taker.remaining, maker.remaining);
        && order.View() == Traded(taker, q)
        && opposite.view == [Traded(maker, q)] + old(opposite.view)[1..]
        && trade == TradeOf(world.instrument, taker, Fill(maker, q), old(tradeSequence) + 1, world.clock(old(tick)))
        && totalVolume == old(totalVolume) + q
      ensures totalTrades == old(totalTrades) + 1 && tradeSequence == old(tradeSequence) + 1 && tick == old(tick) + 1
      ensures tape == old(tape) + [trade] && orders == old(orders) && users == old(users) && done == old(done)
      ensures bids.queue == old(bids.queue) && asks.queue == old(asks.queue)
      ensures SideOf(order.side.Opposite()).totals == old(SideOf(order.side.Opposite()).totals)
      ensures SideOf(order.side).Half() == old(SideOf(order.side).Half())
    {
      var quantity := order.remaining;
      if resting.remaining < quantity {
        quantity := resting.remaining;
      }
      Move(order, resting, quantity);
      trade := Account(order, resting, quantity);
    }

    /** Make the trade record and count it. */
    method Account(order: Order, resting: Order, quantity: int) returns (trade: Trade)
      modifies this`tick, this`tradeSequence, this`totalTrades, this`totalVolume, this`tape
      ensures tick == old(tick) + 1 && tradeSequence == old(tradeSequence) + 1
      ensures trade == TradeOf(world.instrument, order.View(), Fill(resting.View(), quantity), tradeSequence,
        world.clock(old(tick)))
      ensures totalTrades == old(totalTrades) + 1 && totalVolume == old(totalVolume) + quantity
        && tape == old(tape) + [trade]
      ensures orders == old(orders) && users == old(users) && done == old(done)
    {
      trade := CreateTrade(order, resting, quantity);
      totalTrades := totalTrades + 1;
      totalVolume := totalVolume + quantity;
      tape := tape + [trade];
    }

    /** Take the filled maker at the front out of the book and the indexes. */
    method Retire(resting: Order)
      requires Valid() && Pointers() && SideOf(resting.side).queue != [] && SideOf(resting.side).queue[0] == resting
      modifies SideOf(resting.side), this`orders, this`users, this`done
      ensures Valid() && Pointers()
      ensures var h, h0 := SideOf(resting.side).Half(), old(SideOf(resting.side).Half());
        h.queue == h0.queue[1..] && h.totals == TakeFrom(h0.totals, resting.price, h0.queue[0].remaining)
      ensures SideOf(resting.side).queue == old(SideOf(resting.side).queue)[1..]
      ensures orders == old(orders) - {resting.id} && users == DropId(old(users), resting.user, resting.id)
      ensures done == old(done) + [resting.View()] && resting.View() == old(resting.View())
      ensures SideOf(resting.side.Opposite()).queue == old(SideOf(resting.side.Opposite()).queue)
      ensures SideOf(resting.side.Opposite()).Half() == old(SideOf(resting.side.Opposite()).Half())
      ensures totalTrades == old(totalTrades) && totalVolume == old(totalVolume) && tradeSequence == old(tradeSequence)
      ensures tick == old(tick) && tape == old(tape)
    {
      done := done + [resting.View()];
      RemoveOrderFromBook(resting, 0);
    }

    /** Trade with the best resting order, and retire it if that filled it. */
    method TradeWith(order: Order, resting: Order) returns (trade: Trade, emptied: bool)
      requires Valid() && Pointers() && Outside(order) && order.side != resting.side
      requires SideOf(resting.side).queue != [] && SideOf(resting.side).queue[0] == resting
      modifies this`totalTrades, this`totalVolume, this`tradeSequence, this`tick, this`tape, this`orders, this`users,
               this`done,
               SideOf(resting.side), order`filled, order`remaining, resting`filled, resting`remaining
      ensures Valid() && Pointers() && Outside(order)
      ensures var once := TradeOnce(Classic, old(order.View()), old(SideOf(resting.side).view));
        && Turned(world, old(Abs()), Abs(), resting.side, old(order.View()), once)
        && order.View() == Traded(old(order.View()), once.fills[0].quantity)
        && emptied == (once.gone != [] && once.book == [])
        && trade == TradeOf(world.instrument, old(order.View()), once.fills[0], old(tradeSequence) + 1,
             world.clock(old(tick)))
      ensures SideOf(resting.side).queue == old(SideOf(resting.side).queue)
        || SideOf(resting.side).queue == old(SideOf(resting.side).queue)[1..]
    {
      trade := Exchange(order, resting);
      emptied := false;
      if resting.remaining == 0 || resting.status.Filled? {
        Retire(resting);
        emptied := SideOf(resting.side).queue == [];
      }
    }

    /** One turn of the loop: what it does to the order, the opposite side and the indexes is `TradeOnce`. */
    method Turn(order: Order, resting: Order) returns (trade: Trade, stop: bool)
      requires Valid() && Pointers() && Outside(order) && order.side != resting.side
      requires SideOf(resting.side).queue != [] && SideOf(resting.side).queue[0] == resting
      modifies this`totalTrades, this`totalVolume, this`tradeSequence, this`tick, this`tape, this`orders, this`users,
               this`done,
               SideOf(resting.side), order`filled, order`remaining, order`status, resting`filled, resting`remaining
      ensures Valid() && Pointers() && Outside(order)
      ensures var once := TradeOnce(Classic, old(order.View()), old(SideOf(resting.side).view));
        && Turned(world, old(Abs()), Abs(), resting.side, old(order.View()), once)
        && order.View() == once.taker
        && stop == ((once.gone != [] && once.book == []) || OneShot(Classic, old(order.View())))
        && trade == TradeOf(world.instrument, old(order.View()), once.fills[0], old(tradeSequence) + 1,
             world.clock(old(tick)))
      ensures SideOf(resting.side).queue == old(SideOf(resting.side).queue)
        || SideOf(resting.side).queue == old(SideOf(resting.side).queue)[1..]
    {
      var emptied;
      trade, emptied := TradeWith(order, resting);
      stop := LeaveIfOneShot(Classic, order, emptied);
    }

    // ---- The loop ---------------------------------------------------------------------------

    /** So far the loop has done `acc` for the order that arrived as `o0` in the state `s0`. */
    ghost predicate Progress(order: Order, s0: State, o0: Ord, acc: Outcome)
      reads this, bids, asks, order`filled, order`remaining, order`status, order`timestamp, order`sequence
    {
      && order.side == o0.side && acc.taker == order.View() && SameParty(acc.taker, Arrived(world, s0, o0))
      && acc.book == SideOf(order.side.Opposite()).view
      && Abs() == AfterTrades(world, s0, o0, acc)
    }

    /** Put the record of traded volume in place, all that was missing of `after`. */
    ghost method Note(side: Side, after: State)
      requires Valid() && Abs().WithSide(side, Abs().Side(side).(since := after.Side(side).since)) == after
      modifies SideOf(side)`since
      ensures Valid() && Abs() == after
      ensures bids.queue == old(bids.queue) && asks.queue == old(asks.queue) && orders == old(orders)
      ensures bids.view == old(bids.view) && asks.view == old(asks.view)
    {
      SideOf(side).since := after.Side(side).since;
    }

    /** One iteration past the check that the orders match. */
    method Iterate(order: Order, resting: Order, ghost s0: State, ghost o0: Ord, ghost acc: Outcome)
        returns (trade: Trade, stop: bool)
      requires Valid() && Pointers() && Outside(order) && Progress(order, s0, o0, acc)
      requires SideOf(order.side.Opposite()).queue != [] && SideOf(order.side.Opposite()).queue[0] == resting
      modifies this`totalTrades, this`totalVolume, this`tradeSequence, this`tick, this`tape, this`orders, this`users,
               this`done, SideOf(order.side.Opposite()), order`filled, order`remaining, order`status, resting`filled,
               resting`remaining
      ensures var once := TradeOnce(Classic, acc.taker, acc.book);
        && Valid() && Pointers() && Outside(order) && Progress(order, s0, o0, Then(acc, once))
        && stop == ((once.gone != [] && once.book == []) || OneShot(Classic, acc.taker))
        && Printed(world, s0, o0, acc.fills + once.fills) == Printed(world, s0, o0, acc.fills) + [trade]
      ensures SideOf(order.side.Opposite()).queue == old(SideOf(order.side.Opposite()).queue)
        || SideOf(order.side.Opposite()).queue == old(SideOf(order.side.Opposite()).queue)[1..]
    {
      ghost var once := TradeOnce(Classic, acc.taker, acc.book);
      trade, stop := Turn(order, resting);
      Record(order, s0, o0, acc, once, trade);
    }

    /** The turn that was `once` follows `acc`. */
    ghost method Record(order: Order, s0: State, o0: Ord, acc: Outcome, once: Outcome, trade: Trade)
      requires Valid() && |once.fills| == 1 && |once.gone| <= 1 && SameParty(acc.taker, Arrived(world, s0, o0))
      requires order.side == o0.side && SameParty(once.taker, acc.taker) && once.taker == order.View()
      requires var a := AfterTrades(world, s0, o0, acc);
        && Turned(world, a, Abs(), o0.side.Opposite(), acc.taker, once)
        && trade == TradeOf(world.instrument, acc.taker, once.fills[0], a.sequence + 1, world.clock(a.tick))
      modifies SideOf(o0.side.Opposite())`since
      ensures Valid() && Progress(order, s0, o0, Then(acc, once))
      ensures Printed(world, s0, o0, acc.fills + once.fills) == Printed(world, s0, o0, acc.fills) + [trade]
      ensures bids.queue == old(bids.queue) && asks.queue == old(asks.queue) && orders == old(orders)
    {
      var after := AfterTrades(world, s0, o0, Then(acc, once));
      SummaryAdvances(world, s0, o0, acc, once, Abs());
      Note(o0.side.Opposite(), after);
    }

    lemma CanMatchAgrees(order: Order, resting: Order)
      ensures CanOrdersMatch(order, resting) <==> CanMatch(Classic, order.View(), resting.View())
    {
    }

    /** One iteration: `out` grows by one trade, unless the best resting order does not match. */
    method Step(order: Order, ghost s0: State, ghost o0: Ord, ghost acc: Outcome, ghost target: Outcome,
        ghost iterations: nat)
        returns (trades: seq<Trade>, stop: bool, ghost out: Outcome)
      requires Valid() && Pointers() && Outside(order) && Progress(order, s0, o0, acc)
      requires SideOf(order.side.Opposite()).queue != [] && order.remaining > 0 && iterations < MAX_ITERATIONS
      requires Heading(Classic, target, acc, iterations, false)
      modifies this`totalTrades, this`totalVolume, this`tradeSequence, this`tick, this`tape, this`orders, this`users,
               this`done, SideOf(order.side.Opposite()), order`filled, order`remaining, order`status,
               SideOf(order.side.Opposite()).queue`filled, SideOf(order.side.Opposite()).queue`remaining
      ensures Valid() && Pointers() && Outside(order) && Progress(order, s0, o0, out)
      ensures Heading(Classic, target, out, iterations + 1, stop)
      ensures Printed(world, s0, o0, out.fills) == Printed(world, s0, o0, acc.fills) + trades
      ensures forall i :: 0 <= i < |SideOf(order.side.Opposite()).queue| ==>
        SideOf(order.side.Opposite()).queue[i] in old(SideOf(order.side.Opposite()).queue)
    {
      var resting := SideOf(order.side.Opposite()).queue[0];
      CanMatchAgrees(order, resting);
      if !CanOrdersMatch(order, resting) {
        trades, stop, out := [], true, acc;
        HeadingOver(Classic, target, acc, iterations);
        return;
      }
      out := Then(acc, TradeOnce(Classic, acc.taker, acc.book));
      var trade;
      trade, stop := Iterate(order, resting, s0, o0, acc);
      trades := [trade];
      HeadingOnce(Classic, target, acc, iterations, stop);
    }

    /** The loop, whose outcome by its definition is `target`. */
    method MatchLoop(order: Order, ghost s0: State, ghost o0: Ord, ghost target: Outcome)
        returns (trades: seq<Trade>, ghost out: Outcome)
      requires Valid() && Pointers() && Outside(order)
      requires Progress(order, s0, o0, Outcome(order.View(), SideOf(order.side.Opposite()).view, [], []))
      requires Heading(Classic, target, Outcome(order.View(), SideOf(order.side.Opposite()).view, [], []), 0, false)
      modifies this`totalTrades, this`totalVolume, this`tradeSequence, this`tick, this`tape, this`orders, this`users,
               this`done, SideOf(order.side.Opposite()), order`filled, order`remaining, order`status,
               SideOf(order.side.Opposite()).queue`filled, SideOf(order.side.Opposite()).queue`remaining
      ensures Valid() && Pointers() && Outside(order) && Progress(order, s0, o0, out) && out == target
      ensures trades == Printed(world, s0, o0, out.fills)
    {
      var opposite, iterations, stop := SideOf(order.side.Opposite()), 0, false;
      trades := [];
      out := Outcome(order.View(), opposite.view, [], []);
      while !stop && order.remaining > 0 && opposite.queue != [] && iterations < MAX_ITERATIONS
        invariant Valid() && Pointers() && Outside(order) && Progress(order, s0, o0, out)
        invariant Heading(Classic, target, out, iterations, stop)
        invariant trades == Printed(world, s0, o0, out.fills)
        invariant forall i :: 0 <= i < |opposite.queue| ==> opposite.queue[i] in old(opposite.queue)
        decreases MAX_ITERATIONS - iterations
      {
        var more;
        more, stop, out := Step(order, s0, o0, out, target, iterations);
        trades := trades + more;
        iterations := iterations + 1;
      }
      if !stop {
        HeadingOver(Classic, target, out, iterations);
      }
    }

    /** The loop from its start. */
    method MatchFrom(order: Order, ghost s0: State, ghost o0: Ord, ghost none: Outcome) returns (trades: seq<Trade>)
      requires Valid() && Pointers() && Outside(order) && Progress(order, s0, o0, none)
      requires none == Outcome(order.View(), SideOf(order.side.Opposite()).view, [], [])
      requires order.View() == Arrived(world, s0, o0) && none.book == s0.Side(order.side.Opposite()).queue
      modifies this`totalTrades, this`totalVolume, this`tradeSequence, this`tick, this`tape, this`orders, this`users,
               this`done, SideOf(order.side.Opposite()), order`filled, order`remaining, order`status,
               SideOf(order.side.Opposite()).queue`filled, SideOf(order.side.Opposite()).queue`remaining
      ensures Valid() && Pointers() && Outside(order) && Progress(order, s0, o0, MatchOf(world, s0, o0))
      ensures trades == Printed(world, s0, o0, MatchOf(world, s0, o0).fills)
    {
      ThenStarts(none, Match(Classic, none.taker, none.book, MAX_ITERATIONS));
      ghost var out;
      trades, out := MatchLoop(order, s0, o0, MatchOf(world, s0, o0));
    }

    method MatchOrder(order: Order, ghost s0: State, ghost o0: Ord) returns (trades: seq<Trade>)
      requires Valid() && Pointers() && Outside(order) && order.side == o0.side
      requires order.View() == Arrived(world, s0, o0) && Abs() == s0.(sequence := s0.sequence + 1, tick := s0.tick + 1)
      modifies this`totalTrades, this`totalVolume, this`tradeSequence, this`tick, this`tape, this`orders, this`users,
               this`done, SideOf(order.side.Opposite()), order`filled, order`remaining, order`status,
               SideOf(order.side.Opposite()).queue`filled, SideOf(order.side.Opposite()).queue`remaining
      ensures Valid() && Pointers() && Outside(order) && Abs() == Matched(world, s0, o0)
      ensures order.View() == TakerAfter(world, s0, o0) && trades == NewTrades(world, s0, o0)
    {
      var side := order.side.Opposite();
      ghost var none := Outcome(order.View(), SideOf(side).view, [], []);
      SummaryStarts(world, s0, o0);
      Note(side, AfterTrades(world, s0, o0, none));
      if order.remaining == 0 {
        NothingMore(Classic, none, MAX_ITERATIONS);
        return [];
      }
      trades := MatchFrom(order, s0, o0, none);
      SettleStatus(order);
    }

    // ---- The three entry points ---------------------------------------------------------------

    /** `id` is not on the side an order would join, unless the order map holds it there. */
    ghost predicate FreeOn(side: Side, id: nat)
      reads this`orders, bids`view, asks`view
    {
      HasId(SideOf(side).view, id) ==> id in orders && !HasId(SideOf(side.Opposite()).view, id)
    }

    /** Queue an order on its side. */
    method Join(order: Order)
      requires Valid() && Pointers() && !HasId(SideOf(order.side).view, order.id)
      modifies SideOf(order.side)
      ensures Valid() && Pointers() && order in SideOf(order.side).queue
      ensures Abs() == old(Abs()).WithSide(order.side,
        WithOrder(order.side.Buy?, old(Abs()).Side(order.side), order.View()))
    {
      var side := SideOf(order.side);
      assert forall i :: 0 <= i < |side.queue| ==> side.view[i].id == side.queue[i].id;
      side.Insert(order);
    }

    /** Queue an order the engine does not know, and enter it in the indexes. */
    method JoinNew(order: Order)
      requires Valid() && Pointers() && !HasId(SideOf(order.side).view, order.id)
      modifies SideOf(order.side), this`orders, this`users
      ensures Valid() && Pointers()
      ensures Abs() == old(Abs()).WithSide(order.side,
        WithOrder(order.side.Buy?, old(Abs()).Side(order.side), order.View()))
        .(owned := old(Abs()).owned + {order.id}, users := AddId(old(users), order.user, order.id))
    {
      Join(order);
      orders := orders[order.id := order];
      users := AddId(users, order.user, order.id);
    }

    /** Put an order that wants to rest into its side, and into the indexes if its id is not there yet. */
    method Rest(order: Order)
      requires Valid() && Pointers() && Outside(order) && order.View().Active() && order.typ.Limit?
        && order.remaining > 0
      requires order.id !in orders ==> !HasId(SideOf(order.side).view, order.id)
      modifies SideOf(order.side), this`orders, this`users
      ensures Valid() && Pointers() && Abs() == Placed(old(Abs()), order.View())
    {
      var side := SideOf(order.side);
      FoundOnSide(order);
      if order.id !in orders {
        JoinNew(order);
      } else if !(exists i :: 0 <= i < |side.queue| && side.queue[i].id == order.id) {
        Join(order);
      }
    }

    lemma FoundOnSide(order: Order)
      requires Valid()
      ensures HasId(SideOf(order.side).view, order.id)
         <==> exists i :: 0 <= i < |SideOf(order.side).queue| && SideOf(order.side).queue[i].id == order.id
    {
      var side := SideOf(order.side);
      assert forall i :: 0 <= i < |side.queue| ==> side.view[i].id == side.queue[i].id;
    }

    /** The next sequence number and the current time. */
    method Accept(order: Order)
      requires Valid() && Outside(order)
      modifies this`tradeSequence, this`tick, order`sequence, order`timestamp
      ensures Valid() && order.View() == Arrived(world, old(Abs()), old(order.View()))
      ensures Abs() == old(Abs()).(sequence := old(tradeSequence) + 1, tick := old(tick) + 1)
    {
      tradeSequence := tradeSequence + 1;
      order.sequence := tradeSequence;
      order.timestamp := world.clock(tick);
      tick := tick + 1;
    }

    /** A matched order rests in the book, or is done. */
    method Settle(order: Order)
      requires Valid() && Pointers() && Outside(order)
      requires order.id !in orders ==> !HasId(SideOf(order.side).view, order.id)
      modifies SideOf(order.side), this`orders, this`users, this`done
      ensures Valid() && Pointers() && Abs() == Placed(old(Abs()), order.View())
    {
      if order.View().Active() && order.typ.Limit? && order.remaining > 0 {
        Rest(order);
      } else {
        done := done + [order.View()];
      }
    }

    method ProcessOrder(order: Order) returns (trades: seq<Trade>)
      requires Valid() && Pointers() && Outside(order) && FreeOn(order.side, order.id)
      modifies this, bids, asks, order`filled, order`remaining, order`status, order`timestamp, order`sequence,
               bids.queue`filled, bids.queue`remaining, asks.queue`filled, asks.queue`remaining
      ensures Valid() && Pointers()
      ensures Abs() == Process(world, old(Abs()), old(order.View()))
      ensures order.instrument != world.instrument || order.quantity <= 0 || (order.typ.Limit? && order.price <= 0) ==>
        trades == [] && order.View() == old(order.View()).(status := Rejected) && Abs() == old(Abs())
      ensures Acceptable(world, old(order.View())) ==>
        && trades == NewTrades(world, old(Abs()), old(order.View()))
        && order.View() == TakerAfter(world, old(Abs()), old(order.View()))
    {
      ghost var s0, o0 := Abs(), order.View();
      if !Validate(order) {
        order.status := Rejected;
        return [];
      }
      Accept(order);
      trades := MatchOrder(order, s0, o0);
      MatchedFree(world, s0, o0);
      Settle(order);
    }

    /** No id is on both sides. */
    ghost predicate SidesApart()
      reads bids`view, asks`view
    {
      Apart(bids.view, asks.view)
    }

    /** Where the order map's order `id` is, in the book and in its model. */
    lemma Locate(id: nat) returns (side: Side, i: nat)
      requires Valid() && Pointers() && SidesApart() && id in orders
      ensures side == orders[id].side && i < |SideOf(side).queue| && SideOf(side).queue[i] == orders[id]
      ensures orders[id].View() == SideOf(side).view[i] && HasId(SideOf(side).view, id)
        && IndexOf(SideOf(side).view, id) == i
      ensures !HasId(SideOf(side.Opposite()).view, id)
    {
      side := if orders[id] in bids.queue then Buy else Sell;
      i :| 0 <= i < |SideOf(side).queue| && SideOf(side).queue[i] == orders[id];
      assert SideOf(side).view[i].id == id;
      assert SideOf(side).queue[IndexOf(SideOf(side).view, id)].id == id;
    }

    /** Mark the order cancelled, in the book's record too. */
    method MarkCancelled(order: Order, ghost i: nat)
      requires Valid() && i < |SideOf(order.side).queue| && SideOf(order.side).queue[i] == order
      modifies order`status, SideOf(order.side)`view
      ensures Valid() && order.View() == old(order.View()).(status := Cancelled)
      ensures SideOf(order.side).view == old(SideOf(order.side).view)[i := order.View()]
    {
      order.status := Cancelled;
      SideOf(order.side).view := SideOf(order.side).view[i := order.View()];
    }

    /** Cancel an order of the book and take it out. */
    method TakeOut(order: Order, ghost i: nat)
      requires Valid() && Pointers() && i < |SideOf(order.side).queue| && SideOf(order.side).queue[i] == order
      modifies this`orders, this`users, this`done, SideOf(order.side), order`status
      ensures Valid() && Pointers() && Abs() == Removed(old(Abs()), order.side, i)
      ensures orders == old(orders) - {order.id} && order.status.Cancelled?
      ensures SideOf(order.side).queue == Without(old(SideOf(order.side).queue), i)
    {
      WithoutMarked(SideOf(order.side).Half(), i);
      MarkCancelled(order, i);
      done := done + [order.View()];
      RemoveOrderFromBook(order, i);
    }

    lemma RemovedApart(s: State, side: Side, i: nat)
      requires i < |s.Side(side).queue| && Apart(s.bids.queue, s.asks.queue)
      ensures var s' := Removed(s, side, i); Apart(s'.bids.queue, s'.asks.queue)
    {
    }

    lemma CancelAt(s: State, side: Side, i: nat, id: nat, user: nat)
      requires i < |s.Side(side).queue| && HasId(s.Side(side).queue, id) && IndexOf(s.Side(side).queue, id) == i
      requires !HasId(s.Side(side.Opposite()).queue, id) && id in s.owned
      ensures Cancel(s, id, user) == if Cancellable(s.Side(side).queue[i], user) then Removed(s, side, i) else s
    {
    }

    method CancelOrder(id: nat, user: nat) returns (ok: bool)
      requires Valid() && Pointers() && SidesApart()
      modifies this`orders, this`users, this`done, bids, asks, bids.queue`status, asks.queue`status
      ensures Valid() && Pointers() && SidesApart() && Abs() == Cancel(old(Abs()), id, user)
      ensures ok <==>
        id in old(orders) && old(orders)[id].user == user && old(orders[id].status) in {Pending, PartialFilled}
      ensures ok ==> orders == old(orders) - {id} && old(orders)[id].status.Cancelled?
      ensures !ok ==> Abs() == old(Abs()) && orders == old(orders)
      ensures forall i :: 0 <= i < |bids.queue| ==> bids.queue[i] in old(bids.queue)
      ensures forall i :: 0 <= i < |asks.queue| ==> asks.queue[i] in old(asks.queue)
    {
      if id !in orders {
        return false;
      }
      var order := orders[id];
      ghost var side, i := Locate(id);
      CancelAt(Abs(), side, i, id, user);
      if order.user != user {
        return false;
      }
      if !order.View().Active() {
        return false;
      }
      RemovedApart(Abs(), side, i);
      TakeOut(order, i);
      return true;
    }

    /** Cancel the `k`-th order of a user's list. */
    method CancelListed(ids: seq<nat>, k: nat, user: nat, ghost s: State)
      requires Valid() && Pointers() && SidesApart() && k < |ids| && Abs() == CancelEach(s, ids[..k], user)
      modifies this`orders, this`users, this`done, bids, asks, bids.queue`status, asks.queue`status
      ensures Valid() && Pointers() && SidesApart() && Abs() == CancelEach(s, ids[..k + 1], user)
      ensures forall i :: 0 <= i < |bids.queue| ==> bids.queue[i] in old(bids.queue)
      ensures forall i :: 0 <= i < |asks.queue| ==> asks.queue[i] in old(asks.queue)
    {
      assert ids[..k + 1][..k] == ids[..k];
      var ok := CancelOrder(ids[k], user);
    }

    method CancelAllOrders(user: nat)
      requires Valid() && Pointers() && SidesApart()
      modifies this`orders, this`users, this`done, bids, asks, bids.queue`status, asks.queue`status
      ensures Valid() && Pointers() && SidesApart() && Abs() == CancelAll(old(Abs()), user)
    {
      if user !in users {
        return;
      }
      var ids := users[user];
      var k := 0;
      while k < |ids|
        invariant k <= |ids| && Valid() && Pointers() && SidesApart()
        invariant Abs() == CancelEach(old(Abs()), ids[..k], user)
        invariant forall i :: 0 <= i < |bids.queue| ==> bids.queue[i] in old(bids.queue)
        invariant forall i :: 0 <= i < |asks.queue| ==> asks.queue[i] in old(asks.queue)
      {
        CancelListed(ids, k, user, old(Abs()));
        k := k + 1;
      }
      assert ids[..k] == ids;
    }
  }
}
