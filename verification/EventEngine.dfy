/** The event-sourced engine: the same loop over the best resting orders, leaving its events in the log,
    and replaying a log into a fresh book. */
module EventEngine {
  import opened Orders
  import opened Priority
  import opened PriceLevels
  import opened Matching
  import opened Market
  import opened BookSides
  import opened Events
  import opened EventLog
  import opened EventRuns
  import Engine

  /** The desk and the trades once the loop has done `acc` for `a`. */
  ghost function DeskAfter(emit: bool, d: Desk, a: Ord, acc: Outcome): Desk {
    d.WithQueue(a.side.Opposite(), acc.book)
     .(count := d.count + |acc.fills|, volume := d.volume + Volume(acc.fills),
       trades := d.trades + DeskTrades(emit, a, acc.fills))
  }

  ghost function LogAfter(emit: bool, log: seq<Event>, a: Ord, f: seq<Fill>): seq<Event> {
    if emit then LoggedTrades(log, a, f) else log
  }

  /** With emission on, the log so far is numbered and ends with the order's own event. */
  ghost predicate Timely(emit: bool, log: seq<Event>, a: Ord) {
    if emit then Numbered(log) && a.sequence == |log| else a.sequence == Latest(log) + 1
  }

  lemma LogStamp(emit: bool, log: seq<Event>, a: Ord, f: seq<Fill>)
    requires Timely(emit, log, a)
    ensures Latest(LogAfter(emit, log, a, f)) + 1 == TradeStamp(emit, a.sequence, |f|)
  {
    if emit {
      TradesAudited(log, a, f);
      NumberedLatest(LoggedTrades(log, a, f));
    }
  }

  /** The trade of `taker` made when the log has reached `log`. */
  function TradeNow(taker: Ord, f: Fill, log: seq<Event>): Trade { TradeAt(taker, f, Latest(log) + 1) }

  ghost function Emitted(emit: bool, log: seq<Event>, taker: Ord, f: Fill): seq<Event> {
    if emit then
      Logged(Logged(log, MatchedPayload(taker, f), 0), TradeExecuted(TradeNow(taker, f, log)), taker.instrument)
    else log
  }

  lemma TradeSummed(emit: bool, log: seq<Event>, a: Ord, f: seq<Fill>, x: Fill, taker: Ord)
    requires Timely(emit, log, a) && SameOrigin(taker, a)
    ensures var now := LogAfter(emit, log, a, f);
      && DeskTrades(emit, a, f + [x]) == DeskTrades(emit, a, f) + [TradeNow(taker, x, now)]
      && LogAfter(emit, log, a, f + [x]) == Emitted(emit, now, taker, x)
  {
    LogStamp(emit, log, a, f);
    assert (f + [x])[..|f|] == f;
  }

  /** From `d` to `d'` the side `side` saw the trade `once` of `taker`, and nothing else happened. */
  ghost predicate Turned(emit: bool, d: Desk, log: seq<Event>, d': Desk, log': seq<Event>,
                         side: Side, taker: Ord, once: Outcome, trade: Trade)
    requires once.fills != []
  {
    var x := once.fills[0];
    && d'.Queue(side) == once.book && d'.Queue(side.Opposite()) == d.Queue(side.Opposite())
    && d'.count == d.count + 1 && d'.volume == d.volume + x.quantity && d'.trades == d.trades + [trade]
    && trade == TradeNow(taker, x, log) && log' == Emitted(emit, log, taker, x)
  }

  /** One more trade of the loop is one more step of its summary. */
  lemma DeskTurns(emit: bool, d0: Desk, log0: seq<Event>, a: Ord, acc: Outcome, once: Outcome, trade: Trade, d': Desk,
      log': seq<Event>)
    requires |once.fills| == 1 && Timely(emit, log0, a) && SameOrigin(acc.taker, a)
    requires Turned(emit, DeskAfter(emit, d0, a, acc), LogAfter(emit, log0, a, acc.fills), d', log',
                    a.side.Opposite(), acc.taker, once, trade)
    ensures d' == DeskAfter(emit, d0, a, Then(acc, once)) && log' == LogAfter(emit, log0, a, acc.fills + once.fills)
    ensures DeskTrades(emit, a, acc.fills + once.fills) == DeskTrades(emit, a, acc.fills) + [trade]
  {
    var x := once.fills[0];
    assert once.fills == [x];
    TradeSummed(emit, log0, a, acc.fills, x, acc.taker);
    Engine.VolumeAppend(acc.fills, x);
    var t := DeskTrades(emit, a, acc.fills);
    assert d0.trades + (t + [trade]) == d0.trades + t + [trade];
  }

  /** Before the first trade. */
  lemma DeskStarts(emit: bool, d: Desk, log: seq<Event>, a: Ord)
    ensures DeskAfter(emit, d, a, Outcome(a, d.Queue(a.side.Opposite()), [], [])) == d
    ensures LogAfter(emit, log, a, []) == log
  {
    assert d.trades + [] == d.trades;
  }

  lemma SameLog(s: Session, o: Ord)
    requires Admissible(o)
    ensures var a := At(o, Latest(s.log) + 1); var f := DeskMatch(s.desk, a).fills;
      ProcessEs(s, o).log == LoggedTrades(Logged(s.log, PlacedPayload(a), a.instrument), a, f)
  {
    assert PlacedPayload(At(o, Latest(s.log) + 1)) == PlacedPayload(o);
  }

  lemma ReplayNext(log: seq<Event>, k: nat, latest: nat)
    requires k < |log|
    ensures Replay(log[..k + 1], latest) == ReplayOne(Replay(log[..k], latest), log[k], latest)
  {
    assert log[..k + 1][..k] == log[..k];
  }

  lemma PlacedByMore(log: seq<Event>, k: nat)
    requires k < |log|
    ensures forall id :: PlacedBy(log[..k], id) ==> PlacedBy(log[..k + 1], id)
    ensures log[k].payload.OrderPlaced? ==> PlacedBy(log[..k + 1], log[k].payload.order)
    ensures log[k].payload.OrderPlaced? && DistinctOrders(log) ==> !PlacedBy(log[..k], log[k].payload.order)
  {
    assert log[..k + 1][k] == log[k];
    assert forall i :: 0 <= i < k ==> log[..k + 1][i] == log[..k][i];
  }

  class EventSourcedEngine {
    const bids: BookSide
    const asks: BookSide
    const emit: bool
    var log: seq<Event>
    var totalTrades: nat
    var totalVolume: int
    ghost var tape: seq<Trade>

    constructor (log: seq<Event>, emit: bool)
      ensures Valid() && this.emit == emit && this.log == log && Abs() == IDLE
      ensures fresh(bids) && fresh(asks) && bids.queue == [] && asks.queue == []
    {
      bids := new BookSide(Buy);
      asks := new BookSide(Sell);
      this.log, this.emit, totalTrades, totalVolume, tape := log, emit, 0, 0, [];
    }

    function SideOf(side: Side): BookSide { if side.Buy? then bids else asks }

    ghost predicate Valid()
      reads bids, asks, bids.queue`filled, bids.queue`remaining, bids.queue`status, bids.queue`timestamp,
            bids.queue`sequence,
            asks.queue`filled, asks.queue`remaining, asks.queue`status, asks.queue`timestamp, asks.queue`sequence
    {
      bids != asks && bids.side == Buy && asks.side == Sell && bids.Valid() && asks.Valid()
    }

    ghost function Abs(): Desk
      reads this, bids`view, asks`view
    {
      Desk(bids.view, asks.view, totalTrades, totalVolume, tape)
    }

    ghost predicate Outside(order: Order)
      reads bids`queue, asks`queue
    {
      order !in bids.queue && order !in asks.queue
    }

    /** Hand an event to the store, if events are emitted at all. */
    method Publish(p: Payload, instrument: nat)
      modifies this`log
      ensures log == if emit then Logged(old(log), p, instrument) else old(log)
    {
      if emit {
        log := Logged(log, p, instrument);
      }
    }

    /** Move as much as both orders have left. */
    method Move(order: Order, resting: Order) returns (quantity: int)
      requires Valid() && Outside(order) && SideOf(order.side.Opposite()).queue != []
      requires SideOf(order.side.Opposite()).queue[0] == resting
      modifies SideOf(order.side.Opposite())`view, order`filled, order`remaining, resting`filled, resting`remaining
      ensures Valid() && quantity == Min(old(order.remaining), old(resting.remaining))
      ensures order.View() == Traded(old(order.View()), quantity)
      ensures SideOf(order.side.Opposite()).view
           == [Traded(old(resting.View()), quantity)] + old(SideOf(order.side.Opposite()).view)[1..]
      ensures bids.queue == old(bids.queue) && asks.queue == old(asks.queue)
      ensures SideOf(order.side).view == old(SideOf(order.side).view)
    {
      quantity := if order.remaining < resting.remaining then order.remaining else resting.remaining;
      order.filled := order.filled + quantity;
      order.remaining := order.remaining - quantity;
      resting.filled := resting.filled + quantity;
      resting.remaining := resting.remaining - quantity;
      SideOf(order.side.Opposite()).Follow(resting);
    }

    /** Make the trade record, publish its two events and count it. */
    method Record(order: Order, resting: Order, quantity: int) returns (trade: Trade)
      modifies this`totalTrades, this`totalVolume, this`log, this`tape
      ensures trade == TradeNow(order.View(), Fill(resting.View(), quantity), old(log))
      ensures log == Emitted(emit, old(log), order.View(), Fill(resting.View(), quantity))
      ensures totalVolume == old(totalVolume) + quantity && totalTrades == old(totalTrades) + 1
      ensures tape == old(tape) + [trade]
    {
      var stamp := Latest(log) + 1;
      if order.side.Buy? {
        trade := Trade(order.id, resting.id, order.user, resting.user, order.instrument, resting.price, quantity,
                       SequenceToTimestamp(stamp), stamp, true);
      } else {
        trade := Trade(resting.id, order.id, resting.user, order.user, order.instrument, resting.price, quantity,
                       SequenceToTimestamp(stamp), stamp, false);
      }
      Publish(OrderMatched(order.id, resting.id, resting.price, quantity), 0);
      Publish(TradeExecuted(trade), trade.instrument);
      totalTrades := totalTrades + 1;
      totalVolume := totalVolume + quantity;
      tape := tape + [trade];
    }

    /** Trade with the best resting order, record the trade and publish its two events. */
    method Exchange(order: Order, resting: Order) returns (trade: Trade)
      requires Valid() && Outside(order) && SideOf(order.side.Opposite()).queue != []
      requires SideOf(order.side.Opposite()).queue[0] == resting
      modifies this`totalTrades, this`totalVolume, this`log, this`tape,
               SideOf(order.side.Opposite())`view, order`filled, order`remaining, resting`filled, resting`remaining
      ensures Valid()
      ensures var opposite := SideOf(order.side.Opposite());
        var taker, maker := old(order.View()), old(SideOf(order.side.Opposite()).view)[0];
        var q := Min(taker.remaining, maker.remaining);
        && order.View() == Traded(taker, q)
        && opposite.view == [Traded(maker, q)] + old(opposite.view)[1..]
        && trade == TradeNow(taker, Fill(maker, q), old(log))
        && log == Emitted(emit, old(log), taker, Fill(maker, q))
        && totalVolume == old(totalVolume) + q
      ensures totalTrades == old(totalTrades) + 1 && tape == old(tape) + [trade]
      ensures bids.queue == old(bids.queue) && asks.queue == old(asks.queue)
      ensures SideOf(order.side).view == old(SideOf(order.side).view)
    {
      var quantity := Move(order, resting);
      trade := Record(order, resting, quantity);
    }

    /** Take the filled maker at the front out of the book. */
    method Retire(resting: Order)
      requires Valid() && SideOf(resting.side).queue != [] && SideOf(resting.side).queue[0] == resting
      modifies SideOf(resting.side)
      ensures Valid() && SideOf(resting.side).queue == old(SideOf(resting.side).queue)[1..]
      ensures SideOf(resting.side).view == old(SideOf(resting.side).view)[1..]
      ensures SideOf(resting.side.Opposite()).queue == old(SideOf(resting.side.Opposite()).queue)
      ensures SideOf(resting.side.Opposite()).view == old(SideOf(resting.side.Opposite()).view)
    {
      SideOf(resting.side).Remove(resting, 0);
    }

    /** Trade with the best resting order, and take it out of the book if that filled it. */
    method TradeWith(order: Order, resting: Order) returns (trade: Trade, emptied: bool)
      requires Valid() && Outside(order) && order.side != resting.side
      requires SideOf(resting.side).queue != [] && SideOf(resting.side).queue[0] == resting
      modifies this`totalTrades, this`totalVolume, this`log, this`tape,
               SideOf(resting.side), order`filled, order`remaining, resting`filled, resting`remaining
      ensures Valid() && Outside(order)
      ensures var once := TradeOnce(Deterministic, old(order.View()), old(SideOf(resting.side).view));
        && Turned(emit, old(Abs()), old(log), Abs(), log, resting.side, old(order.View()), once, trade)
        && order.View() == Traded(old(order.View()), once.fills[0].quantity)
        && emptied == (once.gone != [] && once.book == [])
      ensures SideOf(resting.side).queue == old(SideOf(resting.side).queue)
        || SideOf(resting.side).queue == old(SideOf(resting.side).queue)[1..]
    {
      trade := Exchange(order, resting);
      emptied := false;
      if resting.remaining == 0 || resting.status.Filled? {
        Retire(resting);
        emptied := SideOf(resting.side).queue == [];
      }
    }

    /** One turn of the loop: what it does to the order and the opposite side is `TradeOnce`. */
    method Turn(order: Order, resting: Order) returns (trade: Trade, stop: bool)
      requires Valid() && Outside(order) && order.side != resting.side
      requires SideOf(resting.side).queue != [] && SideOf(resting.side).queue[0] == resting
      modifies this`totalTrades, this`totalVolume, this`log, this`tape,
               SideOf(resting.side), order`filled, order`remaining, order`status, resting`filled, resting`remaining
      ensures Valid() && Outside(order)
      ensures var once := TradeOnce(Deterministic, old(order.View()), old(SideOf(resting.side).view));
        && Turned(emit, old(Abs()), old(log), Abs(), log, resting.side, old(order.View()), once, trade)
        && order.View() == once.taker
        && stop == ((once.gone != [] && once.book == []) || OneShot(Deterministic, old(order.View())))
      ensures SideOf(resting.side).queue == old(SideOf(resting.side).queue)
        || SideOf(resting.side).queue == old(SideOf(resting.side).queue)[1..]
    {
      var emptied;
      trade, emptied := TradeWith(order, resting);
      stop := LeaveIfOneShot(Deterministic, order, emptied);
    }

    // ---- The loop ---------------------------------------------------------------------------

    /** So far the loop has done `acc` for the order that came as `a` to the desk `d0` with the log `log0`. */
    ghost predicate Progress(order: Order, d0: Desk, log0: seq<Event>, a: Ord, acc: Outcome)
      reads this, bids`view, asks`view, order`filled, order`remaining, order`status, order`timestamp, order`sequence
    {
      && order.side == a.side && acc.taker == order.View() && SameOrigin(acc.taker, a) && Timely(emit, log0, a)
      && acc.book == SideOf(order.side.Opposite()).view
      && Abs() == DeskAfter(emit, d0, a, acc) && log == LogAfter(emit, log0, a, acc.fills)
    }

    /** One iteration past the check that the orders match. */
    method Iterate(order: Order, resting: Order, ghost d0: Desk, ghost log0: seq<Event>, ghost a: Ord,
        ghost acc: Outcome)
        returns (trade: Trade, stop: bool)
      requires Valid() && Outside(order) && Progress(order, d0, log0, a, acc)
      requires SideOf(order.side.Opposite()).queue != [] && SideOf(order.side.Opposite()).queue[0] == resting
      modifies this`totalTrades, this`totalVolume, this`log, this`tape,
               SideOf(order.side.Opposite()), order`filled, order`remaining, order`status, resting`filled,
               resting`remaining
      ensures Valid() && Outside(order)
      ensures var once := TradeOnce(Deterministic, acc.taker, acc.book);
        && Progress(order, d0, log0, a, Then(acc, once))
        && stop == ((once.gone != [] && once.book == []) || OneShot(Deterministic, acc.taker))
        && DeskTrades(emit, a, acc.fills + once.fills) == DeskTrades(emit, a, acc.fills) + [trade]
      ensures SideOf(order.side.Opposite()).queue == old(SideOf(order.side.Opposite()).queue)
        || SideOf(order.side.Opposite()).queue == old(SideOf(order.side.Opposite()).queue)[1..]
    {
      ghost var once := TradeOnce(Deterministic, acc.taker, acc.book);
      trade, stop := Turn(order, resting);
      DeskTurns(emit, d0, log0, a, acc, once, trade, Abs(), log);
    }

    predicate CanMatchDeterministic(order: Order, resting: Order) {
      if order.side.Buy? then order.price >= resting.price else order.price <= resting.price
    }

    /** One iteration: `out` grows by one trade, unless the best resting order does not match. */
    method Step(order: Order, ghost d0: Desk, ghost log0: seq<Event>, ghost a: Ord, ghost acc: Outcome,
        ghost target: Outcome, ghost iterations: nat)
        returns (trades: seq<Trade>, stop: bool, ghost out: Outcome)
      requires Valid() && Outside(order) && Progress(order, d0, log0, a, acc)
      requires SideOf(order.side.Opposite()).queue != [] && order.remaining > 0 && iterations < MAX_ITERATIONS
      requires Engine.Heading(Deterministic, target, acc, iterations, false)
      modifies this`totalTrades, this`totalVolume, this`log, this`tape,
               SideOf(order.side.Opposite()), order`filled, order`remaining, order`status,
               SideOf(order.side.Opposite()).queue`filled, SideOf(order.side.Opposite()).queue`remaining
      ensures Valid() && Outside(order) && Progress(order, d0, log0, a, out)
      ensures Engine.Heading(Deterministic, target, out, iterations + 1, stop)
      ensures DeskTrades(emit, a, out.fills) == DeskTrades(emit, a, acc.fills) + trades
      ensures forall i :: 0 <= i < |SideOf(order.side.Opposite()).queue| ==>
        SideOf(order.side.Opposite()).queue[i] in old(SideOf(order.side.Opposite()).queue)
    {
      var resting := SideOf(order.side.Opposite()).queue[0];
      if !CanMatchDeterministic(order, resting) {
        trades, stop, out := [], true, acc;
        Engine.HeadingOver(Deterministic, target, acc, iterations);
        return;
      }
      out := Then(acc, TradeOnce(Deterministic, acc.taker, acc.book));
      var trade;
      trade, stop := Iterate(order, resting, d0, log0, a, acc);
      trades := [trade];
      Engine.HeadingOnce(Deterministic, target, acc, iterations, stop);
    }

    /** The loop, whose outcome by its definition is `target`. */
    method MatchLoop(order: Order, ghost d0: Desk, ghost log0: seq<Event>, ghost a: Ord, ghost target: Outcome)
        returns (trades: seq<Trade>, ghost out: Outcome)
      requires Valid() && Outside(order)
      requires Progress(order, d0, log0, a, Outcome(order.View(), SideOf(order.side.Opposite()).view, [], []))
      requires Engine.Heading(Deterministic, target, Outcome(order.View(), SideOf(order.side.Opposite()).view, [], []),
        0, false)
      modifies this`totalTrades, this`totalVolume, this`log, this`tape,
               SideOf(order.side.Opposite()), order`filled, order`remaining, order`status,
               SideOf(order.side.Opposite()).queue`filled, SideOf(order.side.Opposite()).queue`remaining
      ensures Valid() && Outside(order) && Progress(order, d0, log0, a, out) && out == target
      ensures trades == DeskTrades(emit, a, out.fills)
      ensures forall i :: 0 <= i < |SideOf(order.side.Opposite()).queue| ==>
        SideOf(order.side.Opposite()).queue[i] in old(SideOf(order.side.Opposite()).queue)
    {
      var opposite, iterations, stop := SideOf(order.side.Opposite()), 0, false;
      trades := [];
      out := Outcome(order.View(), opposite.view, [], []);
      while !stop && order.remaining > 0 && opposite.queue != [] && iterations < MAX_ITERATIONS
        invariant Valid() && Outside(order) && Progress(order, d0, log0, a, out)
        invariant Engine.Heading(Deterministic, target, out, iterations, stop)
        invariant trades == DeskTrades(emit, a, out.fills)
        invariant forall i :: 0 <= i < |opposite.queue| ==> opposite.queue[i] in old(opposite.queue)
        decreases MAX_ITERATIONS - iterations
      {
        var more;
        more, stop, out := Step(order, d0, log0, a, out, target, iterations);
        trades := trades + more;
        iterations := iterations + 1;
      }
      if !stop {
        Engine.HeadingOver(Deterministic, target, out, iterations);
      }
    }

    method MatchOrderDeterministic(order: Order) returns (trades: seq<Trade>)
      requires Valid() && Outside(order) && Timely(emit, log, order.View())
      modifies this`totalTrades, this`totalVolume, this`log, this`tape,
               SideOf(order.side.Opposite()), order`filled, order`remaining, order`status,
               SideOf(order.side.Opposite()).queue`filled, SideOf(order.side.Opposite()).queue`remaining
      ensures Valid() && Outside(order)
      ensures Abs() == DeskMatched(emit, old(Abs()), old(order.View()))
        && order.View() == TakerOf(old(Abs()), old(order.View()))
      ensures log == LogAfter(emit, old(log), old(order.View()), DeskMatch(old(Abs()), old(order.View())).fills)
      ensures trades == DeskTrades(emit, old(order.View()), DeskMatch(old(Abs()), old(order.View())).fills)
      ensures forall i :: 0 <= i < |SideOf(order.side.Opposite()).queue| ==>
        SideOf(order.side.Opposite()).queue[i] in old(SideOf(order.side.Opposite()).queue)
    {
      ghost var d0, log0, a := Abs(), log, order.View();
      ghost var none := Outcome(a, SideOf(order.side.Opposite()).view, [], []);
      DeskStarts(emit, d0, log0, a);
      if order.remaining == 0 {
        Engine.NothingMore(Deterministic, none, MAX_ITERATIONS);
        return [];
      }
      trades := MatchFrom(order, none);
      SettleStatus(order);
    }

    /** The loop from its start. */
    method MatchFrom(order: Order, ghost none: Outcome) returns (trades: seq<Trade>)
      requires Valid() && Outside(order) && Progress(order, Abs(), log, order.View(), none)
      requires none == Outcome(order.View(), SideOf(order.side.Opposite()).view, [], [])
      modifies this`totalTrades, this`totalVolume, this`log, this`tape,
               SideOf(order.side.Opposite()), order`filled, order`remaining, order`status,
               SideOf(order.side.Opposite()).queue`filled, SideOf(order.side.Opposite()).queue`remaining
      ensures Valid() && Outside(order)
      ensures var out := DeskMatch(old(Abs()), old(order.View()));
        && Abs() == DeskMatched(emit, old(Abs()), old(order.View())) && order.View() == out.taker
        && log == LogAfter(emit, old(log), old(order.View()), out.fills)
        && trades == DeskTrades(emit, old(order.View()), out.fills)
      ensures forall i :: 0 <= i < |SideOf(order.side.Opposite()).queue| ==>
        SideOf(order.side.Opposite()).queue[i] in old(SideOf(order.side.Opposite()).queue)
    {
      Engine.ThenStarts(none, Match(Deterministic, none.taker, none.book, MAX_ITERATIONS));
      ghost var out;
      trades, out := MatchLoop(order, Abs(), log, order.View(), DeskMatch(Abs(), order.View()));
    }

    // ---- Orders and replay --------------------------------------------------------------------

    /** Queue an order that wants to rest. */
    method Join(order: Order)
      requires Valid() && Outside(order) && Rests(order.View()) && !HasId(SideOf(order.side).view, order.id)
      modifies SideOf(order.side)
      ensures Valid() && Abs() == Joined(old(Abs()), order.View())
      ensures forall o :: o in SideOf(order.side).queue <==> o in old(SideOf(order.side).queue) || o == order
    {
      var side := SideOf(order.side);
      assert forall i :: 0 <= i < |side.queue| ==> side.view[i].id == side.queue[i].id;
      side.Insert(order);
    }

    /** Number and stamp an accepted order, and publish it. */
    method Accept(order: Order)
      requires Valid() && Outside(order) && (emit ==> Numbered(log))
      modifies this`log, order`sequence, order`timestamp
      ensures Valid() && order.View() == At(old(order.View()), Latest(old(log)) + 1)
      ensures log == (if emit then Logged(old(log), PlacedPayload(order.View()), order.instrument) else old(log))
      ensures Timely(emit, log, order.View())
      ensures Abs() == old(Abs()) && bids.queue == old(bids.queue) && asks.queue == old(asks.queue)
    {
      var stamp := Latest(log) + 1;
      order.sequence := stamp;
      order.timestamp := SequenceToTimestamp(stamp);
      if emit {
        NumberedLatest(log);
        LoggedNumbered(log, PlacedPayload(order.View()), order.instrument);
      }
      Publish(OrderPlaced(order.id, order.user, order.side, order.typ, order.price, order.quantity), order.instrument);
    }

    /** Match an accepted order and queue what is left of it. */
    method Handle(order: Order) returns (trades: seq<Trade>)
      requires Valid() && Outside(order) && Timely(emit, log, order.View()) && !HasId(SideOf(order.side).view, order.id)
      modifies this`log, this`totalTrades, this`totalVolume, this`tape, bids, asks,
               order`filled, order`remaining, order`status,
               bids.queue`filled, bids.queue`remaining, asks.queue`filled, asks.queue`remaining
      ensures Valid()
      ensures Abs() == Joined(DeskMatched(emit, old(Abs()), old(order.View())), TakerOf(old(Abs()), old(order.View())))
      ensures order.View() == TakerOf(old(Abs()), old(order.View()))
      ensures log == LogAfter(emit, old(log), old(order.View()), DeskMatch(old(Abs()), old(order.View())).fills)
      ensures trades == DeskTrades(emit, old(order.View()), DeskMatch(old(Abs()), old(order.View())).fills)
      ensures forall i :: 0 <= i < |bids.queue| ==> bids.queue[i] == order || bids.queue[i] in old(bids.queue)
      ensures forall i :: 0 <= i < |asks.queue| ==> asks.queue[i] == order || asks.queue[i] in old(asks.queue)
    {
      trades := MatchOrderDeterministic(order);
      if order.View().Active() && order.typ.Limit? && order.remaining > 0 {
        Join(order);
      }
    }

    /** Number, publish, match and queue an admissible order. */
    method Admit(order: Order) returns (trades: seq<Trade>)
      requires Valid() && Outside(order) && (emit ==> Numbered(log)) && !HasId(SideOf(order.side).view, order.id)
      requires Admissible(order.View())
      modifies this`log, this`totalTrades, this`totalVolume, this`tape, bids, asks,
               order`filled, order`remaining, order`status, order`timestamp, order`sequence,
               bids.queue`filled, bids.queue`remaining, asks.queue`filled, asks.queue`remaining
      ensures Valid() && Abs() == Handled(emit, old(Abs()), old(order.View()), Latest(old(log)) + 1)
      ensures log == if emit then ProcessEs(Session(old(Abs()), old(log)), old(order.View())).log else old(log)
      ensures var a := At(old(order.View()), Latest(old(log)) + 1);
        order.View() == TakerOf(old(Abs()), a) && trades == DeskTrades(emit, a, DeskMatch(old(Abs()), a).fills)
      ensures forall i :: 0 <= i < |bids.queue| ==> bids.queue[i] == order || bids.queue[i] in old(bids.queue)
      ensures forall i :: 0 <= i < |asks.queue| ==> asks.queue[i] == order || asks.queue[i] in old(asks.queue)
    {
      SameLog(Session(Abs(), log), order.View());
      Accept(order);
      trades := Handle(order);
    }

    method ProcessOrderEs(order: Order) returns (trades: seq<Trade>)
      requires Valid() && Outside(order) && (emit ==> Numbered(log)) && !HasId(SideOf(order.side).view, order.id)
      modifies this`log, this`totalTrades, this`totalVolume, this`tape, bids, asks,
               order`filled, order`remaining, order`status, order`timestamp, order`sequence,
               bids.queue`filled, bids.queue`remaining, asks.queue`filled, asks.queue`remaining
      ensures Valid()
      ensures Abs() == HandledIf(emit, old(Abs()), old(order.View()), Latest(old(log)) + 1)
      ensures log == if emit then ProcessEs(Session(old(Abs()), old(log)), old(order.View())).log else old(log)
      ensures !Admissible(old(order.View())) ==> trades == [] && order.View() == old(order.View()).(status := Rejected)
      ensures Admissible(old(order.View())) ==>
        var a := At(old(order.View()), Latest(old(log)) + 1);
        order.View() == TakerOf(old(Abs()), a) && trades == DeskTrades(emit, a, DeskMatch(old(Abs()), a).fills)
      ensures forall i :: 0 <= i < |bids.queue| ==> bids.queue[i] == order || bids.queue[i] in old(bids.queue)
      ensures forall i :: 0 <= i < |asks.queue| ==> asks.queue[i] == order || asks.queue[i] in old(asks.queue)
    {
      if order.price <= 0 || order.quantity <= 0 {
        Publish(OrderRejected(order.id, order.user, "Validation failed"), 0);
        order.status := Rejected;
        return [];
      }
      trades := Admit(order);
    }

    ghost predicate NotQueued(id: nat)
      reads bids`queue, asks`queue
    {
      && (forall i :: 0 <= i < |bids.queue| ==> bids.queue[i].id != id)
      && forall i :: 0 <= i < |asks.queue| ==> asks.queue[i].id != id
    }

    lemma NotHeld(id: nat, side: Side)
      requires Valid() && NotQueued(id)
      ensures !HasId(SideOf(side).view, id)
    {
      var s := SideOf(side);
      assert forall i :: 0 <= i < |s.queue| ==> s.view[i].id == s.queue[i].id;
    }

    /** The order a placed event describes, as a new object. */
    method Rebuild(e: Event) returns (order: Order)
      requires e.payload.OrderPlaced?
      ensures fresh(order) && order.View() == Rebuilt(e) && order.id == e.payload.order && order.side == e.payload.side
    {
      var p := e.payload;
      order := new Order(p.order, p.user, e.instrument, p.side, p.price, p.quantity, p.typ, e.timestamp);
      order.sequence := e.sequence;
    }

    /** Process the order of a placed event again. */
    method ReplayPlaced(e: Event, order: Order)
      requires Valid() && !emit && Outside(order) && e.payload.OrderPlaced? && order.View() == Rebuilt(e)
      requires !HasId(SideOf(order.side).view, order.id)
      modifies this`log, this`totalTrades, this`totalVolume, this`tape, bids, asks,
               order`filled, order`remaining, order`status, order`timestamp, order`sequence,
               bids.queue`filled, bids.queue`remaining, asks.queue`filled, asks.queue`remaining
      ensures Valid() && log == old(log) && Abs() == HandledIf(false, old(Abs()), Rebuilt(e), Latest(log) + 1)
      ensures forall i :: 0 <= i < |bids.queue| ==> bids.queue[i] == order || bids.queue[i] in old(bids.queue)
      ensures forall i :: 0 <= i < |asks.queue| ==> asks.queue[i] == order || asks.queue[i] in old(asks.queue)
    {
      var trades := ProcessOrderEs(order);
    }

    /** Replay one event: only placed orders do anything. */
    method ReplayEvent(e: Event) returns (ghost made: set<Order>)
      requires Valid() && !emit && (e.payload.OrderPlaced? ==> NotQueued(e.payload.order))
      modifies this`log, this`totalTrades, this`totalVolume, this`tape, bids, asks,
               bids.queue`filled, bids.queue`remaining, asks.queue`filled, asks.queue`remaining
      ensures Valid() && log == old(log) && Abs() == ReplayOne(old(Abs()), e, Latest(log))
      ensures fresh(made) && forall o :: o in made ==> e.payload.OrderPlaced? && o.id == e.payload.order
      ensures forall i :: 0 <= i < |bids.queue| ==> bids.queue[i] in made || bids.queue[i] in old(bids.queue)
      ensures forall i :: 0 <= i < |asks.queue| ==> asks.queue[i] in made || asks.queue[i] in old(asks.queue)
    {
      made := {};
      if e.payload.OrderPlaced? {
        NotHeld(e.payload.order, e.payload.side);
        var order := Rebuild(e);
        ReplayPlaced(e, order);
        made := {order};
      }
    }

    /** The queues hold only orders of `made`, each placed by one of `events`. */
    ghost predicate Replayed(events: seq<Event>, made: set<Order>)
      reads bids`queue, asks`queue
    {
      && (forall i :: 0 <= i < |bids.queue| ==> bids.queue[i] in made && PlacedBy(events, bids.queue[i].id))
      && forall i :: 0 <= i < |asks.queue| ==> asks.queue[i] in made && PlacedBy(events, asks.queue[i].id)
    }

    lemma NotQueuedYet(events: seq<Event>, made: set<Order>, k: nat)
      requires k < |events| && DistinctOrders(events) && Replayed(events[..k], made) && events[k].payload.OrderPlaced?
      ensures NotQueued(events[k].payload.order)
    {
      PlacedByMore(events, k);
    }

    /** Replay the `k`-th event. */
    method ReplayStep(events: seq<Event>, k: nat, ghost made: set<Order>) returns (ghost made': set<Order>)
      requires Valid() && !emit && k < |events| && DistinctOrders(events) && Replayed(events[..k], made)
      requires Abs() == Replay(events[..k], Latest(log))
      modifies this`log, this`totalTrades, this`totalVolume, this`tape, bids, asks, made`filled, made`remaining
      ensures Valid() && log == old(log) && Abs() == Replay(events[..k + 1], Latest(log))
      ensures Replayed(events[..k + 1], made') && fresh(made' - made)
    {
      ReplayNext(events, k, Latest(log));
      PlacedByMore(events, k);
      if events[k].payload.OrderPlaced? { NotQueuedYet(events, made, k); }
      ghost var more := ReplayEvent(events[k]);
      made' := made + more;
    }

    /** Replay a log, with emission off, into an engine that has seen nothing: the events of trades and
        rejections are side effects of the orders and are skipped. */
    method ReplayEvents(events: seq<Event>)
      requires Valid() && !emit && Abs() == IDLE && bids.queue == [] && asks.queue == [] && DistinctOrders(events)
      modifies this`log, this`totalTrades, this`totalVolume, this`tape, bids, asks
      ensures Valid() && Abs() == Replay(events, Latest(log)) && log == old(log)
    {
      var k := 0;
      ghost var made := {};
      assert events[..0] == [];
      while k < |events|
        invariant k <= |events| && Valid() && log == old(log) && Abs() == Replay(events[..k], Latest(log))
        invariant Replayed(events[..k], made) && fresh(made)
      {
        made := ReplayStep(events, k, made);
        k := k + 1;
      }
      assert events[..k] == events;
    }
  }
}
