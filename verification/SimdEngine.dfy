/** The third matching loop, over the same contract of a book side: it stamps statuses as it goes and
    never cancels a one-shot order. Whether the book finds its best price with vector instructions does
    not matter here. */
module SimdEngine {
  import opened Orders
  import opened Priority
  import opened PriceLevels
  import opened Matching
  import opened Market
  import opened BookSides
  import Engine

  /** The record of one fill, numbered by the clock. */
  function ClockTrade(taker: Ord, f: Fill, now: nat, later: nat): Trade {
    var buy, sell := if taker.side.Buy? then taker else f.maker, if taker.side.Buy? then f.maker else taker;
    Trade(buy.id, sell.id, buy.user, sell.user, taker.instrument, f.maker.price, f.quantity, now, later,
      taker.side.Buy?)
  }

  /** Two clock readings for each trade. */
  function ClockTrades(clock: nat -> nat, tick: nat, taker: Ord, f: seq<Fill>): (t: seq<Trade>)
    ensures |t| == |f|
    ensures forall i :: 0 <= i < |f| ==> t[i] == ClockTrade(taker, f[i], clock(tick + 2 * i), clock(tick + 2 * i + 1))
  {
    seq(|f|, i requires 0 <= i < |f| => ClockTrade(taker, f[i], clock(tick + 2 * i), clock(tick + 2 * i + 1)))
  }

  lemma ClockTradesMore(clock: nat -> nat, tick: nat, a: Ord, f: seq<Fill>, x: Fill, taker: Ord)
    requires SameOrigin(taker, a)
    ensures ClockTrades(clock, tick, a, f + [x])
         == ClockTrades(clock, tick, a, f) + [ClockTrade(taker, x, clock(tick + 2 * |f|), clock(tick + 2 * |f| + 1))]
  {
  }

  class ArtSimdEngine {
    const bids: BookSide
    const asks: BookSide
    const clock: nat -> nat
    var tick: nat

    constructor (clock: nat -> nat)
      ensures Valid() && bids.queue == [] && asks.queue == [] && fresh(bids) && fresh(asks) && this.clock == clock
    {
      bids := new BookSide(Buy);
      asks := new BookSide(Sell);
      this.clock, tick := clock, 0;
    }

    function SideOf(side: Side): BookSide { if side.Buy? then bids else asks }

    ghost predicate Valid()
      reads bids, asks, bids.queue`filled, bids.queue`remaining, bids.queue`status, bids.queue`timestamp,
            bids.queue`sequence,
            asks.queue`filled, asks.queue`remaining, asks.queue`status, asks.queue`timestamp, asks.queue`sequence
    {
      bids != asks && bids.side == Buy && asks.side == Sell && bids.Valid() && asks.Valid()
    }

    ghost predicate Outside(order: Order)
      reads bids`queue, asks`queue
    {
      order !in bids.queue && order !in asks.queue
    }

    /** Move as much as both orders have left and stamp both statuses. */
    method Swap(order: Order, maker: Order) returns (quantity: int)
      requires order != maker
      modifies order`filled, order`remaining, order`status, maker`filled, maker`remaining, maker`status
      ensures quantity == Min(old(order.remaining), old(maker.remaining))
      ensures order.View() == Matching.Stamped(Simd, old(order.View()), quantity)
      ensures maker.View() == Matching.Stamped(Simd, old(maker.View()), quantity)
    {
      quantity := if maker.remaining < order.remaining then maker.remaining else order.remaining;
      order.remaining := order.remaining - quantity;
      order.filled := order.filled + quantity;
      maker.remaining := maker.remaining - quantity;
      maker.filled := maker.filled + quantity;
      order.status := if order.remaining == 0 then Filled else PartialFilled;
      maker.status := if maker.remaining == 0 then Filled else PartialFilled;
    }

    /** The same with the best resting order, keeping the book's record in step. */
    method Move(order: Order, maker: Order) returns (quantity: int)
      requires Valid() && Outside(order) && SideOf(order.side.Opposite()).queue != []
      requires SideOf(order.side.Opposite()).queue[0] == maker
      modifies SideOf(order.side.Opposite())`view, order`filled, order`remaining, order`status,
               maker`filled, maker`remaining, maker`status
      ensures Valid() && quantity == Min(old(order.remaining), old(maker.remaining))
      ensures order.View() == Matching.Stamped(Simd, old(order.View()), quantity)
      ensures SideOf(order.side.Opposite()).view
           == [Matching.Stamped(Simd, old(maker.View()), quantity)] + old(SideOf(order.side.Opposite()).view)[1..]
      ensures SideOf(order.side).view == old(SideOf(order.side).view)
      ensures bids.queue == old(bids.queue) && asks.queue == old(asks.queue)
    {
      quantity := Swap(order, maker);
      SideOf(order.side.Opposite()).Follow(maker);
    }

    method CreateTrade(order: Order, maker: Order, quantity: int) returns (trade: Trade)
      modifies this`tick
      ensures tick == old(tick) + 2
      ensures trade == ClockTrade(order.View(), Fill(maker.View(), quantity), clock(old(tick)), clock(old(tick) + 1))
    {
      var buy := if order.side.Buy? then order else maker;
      var sell := if order.side.Buy? then maker else order;
      trade := Trade(buy.id, sell.id, buy.user, sell.user, order.instrument, maker.price, quantity,
                     clock(tick), clock(tick + 1), order.side.Buy?);
      tick := tick + 2;
    }

    /** Take the filled maker at the front out of the book. */
    method Retire(maker: Order)
      requires Valid() && SideOf(maker.side).queue != [] && SideOf(maker.side).queue[0] == maker
      modifies SideOf(maker.side)
      ensures Valid() && SideOf(maker.side).queue == old(SideOf(maker.side).queue)[1..]
      ensures SideOf(maker.side).view == old(SideOf(maker.side).view)[1..]
      ensures SideOf(maker.side.Opposite()).queue == old(SideOf(maker.side.Opposite()).queue)
      ensures SideOf(maker.side.Opposite()).view == old(SideOf(maker.side.Opposite()).view)
    {
      SideOf(maker.side).Remove(maker, 0);
    }

    /** One turn of the loop is `TradeOnce`. */
    method Turn(order: Order, maker: Order) returns (trade: Trade)
      requires Valid() && Outside(order) && SideOf(order.side.Opposite()).queue != []
      requires SideOf(order.side.Opposite()).queue[0] == maker
      modifies this`tick, SideOf(order.side.Opposite()), order`filled, order`remaining, order`status,
               maker`filled, maker`remaining, maker`status
      ensures Valid() && Outside(order) && tick == old(tick) + 2
      ensures var once := TradeOnce(Simd, old(order.View()), old(SideOf(order.side.Opposite()).view));
        && order.View() == once.taker && SideOf(order.side.Opposite()).view == once.book
        && trade == ClockTrade(old(order.View()), once.fills[0], clock(old(tick)), clock(old(tick) + 1))
      ensures SideOf(order.side.Opposite()).queue == old(SideOf(order.side.Opposite()).queue)
        || SideOf(order.side.Opposite()).queue == old(SideOf(order.side.Opposite()).queue)[1..]
    {
      var quantity := Move(order, maker);
      trade := CreateTrade(order, maker, quantity);
      if maker.remaining == 0 {
        Retire(maker);
      }
    }

    predicate CanMatchPrice(order: Order, best: int) {
      best != 0 && if order.side.Buy? then order.price >= best else order.price <= best
    }

    /** The loop has done `acc` for the order that came as `a` when the clock stood at `start`. */
    ghost predicate Progress(order: Order, a: Ord, start: nat, acc: Outcome)
      reads this`tick, bids`view, asks`view, order`filled, order`remaining, order`status, order`timestamp,
            order`sequence
    {
      && order.side == a.side && acc.taker == order.View() && SameOrigin(acc.taker, a)
      && acc.book == SideOf(order.side.Opposite()).view && tick == start + 2 * |acc.fills|
    }

    lemma CanMatchAgrees(order: Order, maker: Order)
      ensures CanMatchPrice(order, maker.price) <==> CanMatch(Simd, order.View(), maker.View())
    {
    }

    method Step(order: Order, ghost a: Ord, ghost start: nat, ghost acc: Outcome, ghost target: Outcome,
        ghost iterations: nat)
        returns (trades: seq<Trade>, stop: bool, ghost out: Outcome)
      requires Valid() && Outside(order) && Progress(order, a, start, acc)
      requires SideOf(order.side.Opposite()).queue != [] && order.remaining > 0 && iterations < MAX_ITERATIONS
      requires Engine.Heading(Simd, target, acc, iterations, false)
      modifies this`tick, SideOf(order.side.Opposite()), order`filled, order`remaining, order`status,
               SideOf(order.side.Opposite()).queue`filled, SideOf(order.side.Opposite()).queue`remaining,
               SideOf(order.side.Opposite()).queue`status
      ensures Valid() && Outside(order) && Progress(order, a, start, out)
      ensures Engine.Heading(Simd, target, out, iterations + 1, stop)
      ensures ClockTrades(clock, start, a, out.fills) == ClockTrades(clock, start, a, acc.fills) + trades
      ensures forall i :: 0 <= i < |SideOf(order.side.Opposite()).queue| ==>
        SideOf(order.side.Opposite()).queue[i] in old(SideOf(order.side.Opposite()).queue)
    {
      var maker := SideOf(order.side.Opposite()).queue[0];
      CanMatchAgrees(order, maker);
      if !CanMatchPrice(order, maker.price) {
        Engine.HeadingOver(Simd, target, acc, iterations);
        trades, stop, out := [], true, acc;
        return;
      }
      ghost var once := TradeOnce(Simd, acc.taker, acc.book);
      Engine.HeadingOnce(Simd, target, acc, iterations, false);
      ClockTradesMore(clock, start, a, acc.fills, once.fills[0], acc.taker);
      var trade := Turn(order, maker);
      assert once.fills == [once.fills[0]];
      trades, stop, out := [trade], false, Then(acc, once);
    }

    /** The loop, whose outcome by its definition is `target`. */
    method MatchLoop(order: Order, ghost a: Ord, ghost start: nat, ghost target: Outcome)
        returns (trades: seq<Trade>, ghost out: Outcome)
      requires Valid() && Outside(order)
      requires Progress(order, a, start, Outcome(order.View(), SideOf(order.side.Opposite()).view, [], []))
      requires Engine.Heading(Simd, target, Outcome(order.View(), SideOf(order.side.Opposite()).view, [], []), 0, false)
      modifies this`tick, SideOf(order.side.Opposite()), order`filled, order`remaining, order`status,
               SideOf(order.side.Opposite()).queue`filled, SideOf(order.side.Opposite()).queue`remaining,
               SideOf(order.side.Opposite()).queue`status
      ensures Valid() && Outside(order) && Progress(order, a, start, out) && out == target
      ensures trades == ClockTrades(clock, start, a, out.fills)
    {
      var opposite, iterations, stop := SideOf(order.side.Opposite()), 0, false;
      trades := [];
      out := Outcome(order.View(), opposite.view, [], []);
      while !stop && order.remaining > 0 && opposite.queue != [] && iterations < MAX_ITERATIONS
        invariant Valid() && Outside(order) && Progress(order, a, start, out)
        invariant Engine.Heading(Simd, target, out, iterations, stop)
        invariant trades == ClockTrades(clock, start, a, out.fills)
        invariant forall i :: 0 <= i < |opposite.queue| ==> opposite.queue[i] in old(opposite.queue)
        decreases MAX_ITERATIONS - iterations
      {
        var more;
        more, stop, out := Step(order, a, start, out, target, iterations);
        trades := trades + more;
        iterations := iterations + 1;
      }
      if !stop {
        Engine.HeadingOver(Simd, target, out, iterations);
      }
    }

    /** The loop computes `Match` under its rule: the taker, the book it leaves and the trades. */
    method MatchOrderArtSimd(order: Order) returns (trades: seq<Trade>)
      requires Valid() && Outside(order)
      modifies this`tick, SideOf(order.side.Opposite()), order`filled, order`remaining, order`status,
               SideOf(order.side.Opposite()).queue`filled, SideOf(order.side.Opposite()).queue`remaining,
               SideOf(order.side.Opposite()).queue`status
      ensures Valid() && Outside(order)
      ensures var out := Match(Simd, old(order.View()), old(SideOf(order.side.Opposite()).view), MAX_ITERATIONS);
        && order.View() == out.taker && SideOf(order.side.Opposite()).view == out.book
        && trades == ClockTrades(clock, old(tick), old(order.View()), out.fills)
    {
      ghost var a, book := order.View(), SideOf(order.side.Opposite()).view;
      ghost var target := Match(Simd, a, book, MAX_ITERATIONS);
      Engine.ThenStarts(Outcome(a, book, [], []), target);
      ghost var out;
      trades, out := MatchLoop(order, a, tick, target);
    }
  }
}
