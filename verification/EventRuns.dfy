/** The event-sourced engine as a function of values: every accepted order leaves its events in the
    log, and replaying the log rebuilds the book. */
module EventRuns {
  import opened Orders
  import opened Priority
  import opened PriceLevels
  import opened Matching
  import opened Market
  import opened MarketBook
  import opened MarketDeterminism
  import opened MarketTotals
  import opened Events
  import opened EventLog

  /** The books, the counters and the trades made so far. */
  datatype Desk = Desk(bids: seq<Ord>, asks: seq<Ord>, count: nat, volume: int, trades: seq<Trade>) {
    function Queue(side: Side): seq<Ord> { if side.Buy? then bids else asks }
    function WithQueue(side: Side, q: seq<Ord>): Desk { if side.Buy? then this.(bids := q) else this.(asks := q) }
  }

  const IDLE := Desk([], [], 0, 0, [])

  predicate Admissible(o: Ord) { o.price > 0 && o.quantity > 0 }

  /** Sequence number `stamp` and the time that goes with it. */
  function At(o: Ord, stamp: nat): Ord { o.(sequence := stamp, timestamp := SequenceToTimestamp(stamp)) }

  function TradeAt(taker: Ord, f: Fill, stamp: nat): Trade {
    var buy, sell := if taker.side.Buy? then taker else f.maker, if taker.side.Buy? then f.maker else taker;
    Trade(buy.id, sell.id, buy.user, sell.user, taker.instrument, f.maker.price, f.quantity,
          SequenceToTimestamp(stamp), stamp, taker.side.Buy?)
  }

  /** The number of the `i`-th trade of the order `stamp`. With emission on, the order's own event and two
      events for each earlier trade come first; with emission off the numbers stand still. */
  function TradeStamp(emit: bool, stamp: nat, i: nat): nat { if emit then stamp + 1 + 2 * i else stamp }

  function DeskTrades(emit: bool, taker: Ord, f: seq<Fill>): (t: seq<Trade>)
    ensures |t| == |f| && forall i :: 0 <= i < |f| ==> t[i] == TradeAt(taker, f[i], TradeStamp(emit, taker.sequence, i))
  {
    if f == [] then []
    else
      var n := |f| - 1;
      DeskTrades(emit, taker, f[..n]) + [TradeAt(taker, f[n], TradeStamp(emit, taker.sequence, n))]
  }

  function DeskMatch(d: Desk, a: Ord): Outcome {
    Match(Deterministic, a, d.Queue(a.side.Opposite()), MAX_ITERATIONS)
  }

  function DeskMatched(emit: bool, d: Desk, a: Ord): Desk {
    var out := DeskMatch(d, a);
    d.WithQueue(a.side.Opposite(), out.book)
     .(count := d.count + |out.fills|, volume := d.volume + Volume(out.fills),
       trades := d.trades + DeskTrades(emit, a, out.fills))
  }

  function TakerOf(d: Desk, a: Ord): Ord {
    if a.remaining == 0 then a else Settled(DeskMatch(d, a).taker)
  }

  function Joined(d: Desk, o: Ord): Desk {
    if !Rests(o) then d
    else
      var q := d.Queue(o.side);
      d.WithQueue(o.side, InsertAt(q, Position(o.side.Buy?, OrdKeys(q), Key(o.price, o.timestamp)), o))
  }

  /** An admissible order that arrives with the number `stamp`. */
  function Handled(emit: bool, d: Desk, o: Ord, stamp: nat): Desk {
    var a := At(o, stamp);
    Joined(DeskMatched(emit, d, a), TakerOf(d, a))
  }

  function HandledIf(emit: bool, d: Desk, o: Ord, stamp: nat): Desk {
    if Admissible(o) then Handled(emit, d, o, stamp) else d
  }

  // ---- The log ----------------------------------------------------------------------------

  function Unnumbered(p: Payload, instrument: nat): Event { Event(p, 0, 0, instrument) }

  /** The log after the store has taken one more event. */
  function Logged(log: seq<Event>, p: Payload, instrument: nat): seq<Event> {
    log + [EventLog.Stamped(Unnumbered(p, instrument), Latest(log))]
  }

  function PlacedPayload(o: Ord): Payload { OrderPlaced(o.id, o.user, o.side, o.typ, o.price, o.quantity) }

  function MatchedPayload(taker: Ord, f: Fill): Payload {
    OrderMatched(taker.id, f.maker.id, f.maker.price, f.quantity)
  }

  /** The two events of each trade. A matched event carries no instrument. */
  function LoggedTrades(log: seq<Event>, taker: Ord, f: seq<Fill>): seq<Event> {
    if f == [] then log
    else
      var n := |f| - 1;
      var before := LoggedTrades(log, taker, f[..n]);
      var t := TradeAt(taker, f[n], Latest(before) + 1);
      Logged(Logged(before, MatchedPayload(taker, f[n]), 0), TradeExecuted(t), t.instrument)
  }

  datatype Session = Session(desk: Desk, log: seq<Event>)

  const OPENING := Session(IDLE, [])

  function ProcessEs(s: Session, o: Ord): Session {
    if !Admissible(o) then s.(log := Logged(s.log, OrderRejected(o.id, o.user, "Validation failed"), 0))
    else
      var a := At(o, Latest(s.log) + 1);
      Session(Handled(true, s.desk, o, Latest(s.log) + 1),
              LoggedTrades(Logged(s.log, PlacedPayload(o), o.instrument), a, DeskMatch(s.desk, a).fills))
  }

  /** Cancelling finds no order, because this engine never fills the order map: nothing happens. */
  datatype Request = Submit(order: Ord) | CancelEs(id: nat, user: nat)

  function SessionStep(s: Session, r: Request): Session {
    match r case Submit(o) => ProcessEs(s, o) case CancelEs(_, _) => s
  }

  function SessionRun(rs: seq<Request>): Session {
    if rs == [] then OPENING else SessionStep(SessionRun(rs[..|rs| - 1]), rs[|rs| - 1])
  }

  // ---- Replay -----------------------------------------------------------------------------

  /** The order a placed event describes. */
  function Rebuilt(e: Event): Ord
    requires e.payload.OrderPlaced?
  {
    var p := e.payload;
    Ord(p.order, p.user, e.instrument, p.side, p.typ, p.price, p.quantity, 0, p.quantity, Pending,
        e.timestamp, e.sequence)
  }

  /** Replaying one event over a log whose latest number is `latest`, with emission off. */
  function ReplayOne(d: Desk, e: Event, latest: nat): Desk {
    if e.payload.OrderPlaced? then HandledIf(false, d, Rebuilt(e), latest + 1) else d
  }

  function Replay(log: seq<Event>, latest: nat): Desk {
    if log == [] then IDLE else ReplayOne(Replay(log[..|log| - 1], latest), log[|log| - 1], latest)
  }

  /** The records agree up to numbers and times. */
  function BareTapes(t: seq<Trade>): seq<Trade> {
    seq(|t|, i requires 0 <= i < |t| => t[i].(timestamp := 0, sequence := 0))
  }

  ghost predicate SameDesk(a: Desk, b: Desk) {
    && BareAll(a.bids) == BareAll(b.bids) && BareAll(a.asks) == BareAll(b.asks)
    && a.count == b.count && a.volume == b.volume && BareTapes(a.trades) == BareTapes(b.trades)
  }

  ghost predicate DeskSound(d: Desk, n: nat) {
    QueueSound(d.bids, Buy, n, SequenceToTimestamp(n)) && QueueSound(d.asks, Sell, n, SequenceToTimestamp(n))
  }

  // ---- One order --------------------------------------------------------------------------

  /** Handling a new order keeps the desk sound, whatever the number, as long as it is no earlier. */
  lemma HandledSound(emit: bool, d: Desk, o: Ord, n: nat, stamp: nat)
    requires DeskSound(d, n) && n <= stamp && Fresh(o) && Admissible(o)
    ensures DeskSound(Handled(emit, d, o, stamp), stamp)
  {
    var a := At(o, stamp);
    var opp, now := a.side.Opposite(), SequenceToTimestamp(stamp);
    QueueLater(d.bids, Buy, n, stamp, SequenceToTimestamp(n), now);
    QueueLater(d.asks, Sell, n, stamp, SequenceToTimestamp(n), now);
    QueueMatched(Deterministic, a, d.Queue(opp), MAX_ITERATIONS, opp, stamp, now);
    if Rests(TakerOf(d, a)) {
      TakerEsSound(d, a, stamp);
      QueueInsert(d.Queue(a.side), TakerOf(d, a), a.side, stamp, now);
    }
  }

  lemma TakerEsSound(d: Desk, a: Ord, stamp: nat)
    requires DeskSound(d, stamp) && Fresh(a) && Admissible(a) && a == At(a, stamp)
    ensures TakerOf(d, a).side == a.side && TakerOf(d, a).timestamp == a.timestamp
    ensures Rests(TakerOf(d, a)) ==> Sound(TakerOf(d, a), a.side, stamp, SequenceToTimestamp(stamp))
  {
    var q := d.Queue(a.side.Opposite());
    SoundResting(a, q, a.side.Opposite(), stamp, SequenceToTimestamp(stamp));
    FillsPositive(Deterministic, a, q, MAX_ITERATIONS);
    MatchIsGreedy(Deterministic, a, q, MAX_ITERATIONS);
    MatchKeepsTerms(Deterministic, a, q, MAX_ITERATIONS);
  }

  // ---- Two desks --------------------------------------------------------------------------

  lemma SameTradeAt(t1: Ord, t2: Ord, f1: Fill, f2: Fill, n1: nat, n2: nat)
    requires Bare(t1) == Bare(t2) && Bare(f1.maker) == Bare(f2.maker) && f1.quantity == f2.quantity
    ensures TradeAt(t1, f1, n1).(timestamp := 0, sequence := 0) == TradeAt(t2, f2, n2).(timestamp := 0, sequence := 0)
  {
    assert Bare(t1).side == t1.side && Bare(t2).side == t2.side && Bare(t1).id == t1.id && Bare(t2).id == t2.id;
    assert Bare(t1).user == t1.user && Bare(t2).user == t2.user && Bare(t1).instrument == t1.instrument
      && Bare(t2).instrument == t2.instrument;
    var m1, m2 := Bare(f1.maker), Bare(f2.maker);
    assert m1.id == f1.maker.id && m2.id == f2.maker.id && m1.user == f1.maker.user && m2.user == f2.maker.user;
    assert m1.price == f1.maker.price && m2.price == f2.maker.price;
  }

  lemma SameDeskTrades(e1: bool, e2: bool, t1: Ord, t2: Ord, f1: seq<Fill>, f2: seq<Fill>)
    requires Bare(t1) == Bare(t2) && BareFills(f1) == BareFills(f2)
    ensures BareTapes(DeskTrades(e1, t1, f1)) == BareTapes(DeskTrades(e2, t2, f2))
  {
    assert |BareFills(f1)| == |f1| && |BareFills(f2)| == |f2|;
    var a, b := BareTapes(DeskTrades(e1, t1, f1)), BareTapes(DeskTrades(e2, t2, f2));
    forall i | 0 <= i < |f1| ensures a[i] == b[i] {
      assert BareFills(f1)[i] == BareFills(f2)[i];
      SameTradeAt(t1, t2, f1[i], f2[i], TradeStamp(e1, t1.sequence, i), TradeStamp(e2, t2.sequence, i));
    }
  }

  lemma BareTapesConcat(a: seq<Trade>, b: seq<Trade>)
    ensures BareTapes(a + b) == BareTapes(a) + BareTapes(b)
  {
  }

  lemma SameDeskMatched(e1: bool, e2: bool, d1: Desk, d2: Desk, a1: Ord, a2: Ord, n1: nat, n2: nat)
    requires SameDesk(d1, d2) && DeskSound(d1, n1) && DeskSound(d2, n2) && Bare(a1) == Bare(a2) && a1.side == a2.side
    ensures SameOutcome(DeskMatch(d1, a1), DeskMatch(d2, a2))
    ensures SameDesk(DeskMatched(e1, d1, a1), DeskMatched(e2, d2, a2))
  {
    var opp, out1, out2 := a1.side.Opposite(), DeskMatch(d1, a1), DeskMatch(d2, a2);
    SoundResting(a1, d1.Queue(opp), opp, n1, SequenceToTimestamp(n1));
    SoundResting(a2, d2.Queue(opp), opp, n2, SequenceToTimestamp(n2));
    MatchAgrees(Deterministic, Deterministic, a1, a2, d1.Queue(opp), d2.Queue(opp), MAX_ITERATIONS);
    VolumeBare(out1.fills);
    VolumeBare(out2.fills);
    assert |BareFills(out1.fills)| == |out1.fills| && |BareFills(out2.fills)| == |out2.fills|;
    SameDeskTrades(e1, e2, a1, a2, out1.fills, out2.fills);
    BareTapesConcat(d1.trades, DeskTrades(e1, a1, out1.fills));
    BareTapesConcat(d2.trades, DeskTrades(e2, a2, out2.fills));
  }

  lemma SameTakerOf(d1: Desk, d2: Desk, a1: Ord, a2: Ord)
    requires SameOutcome(DeskMatch(d1, a1), DeskMatch(d2, a2)) && Bare(a1) == Bare(a2) && a1.side == a2.side
    requires a1.Active() && a2.Active() && a1.typ == a2.typ && a1.remaining == a2.remaining
    ensures Bare(TakerOf(d1, a1)) == Bare(TakerOf(d2, a2))
    ensures Rests(TakerOf(d1, a1)) <==> Rests(TakerOf(d2, a2))
    ensures TakerOf(d1, a1).timestamp == a1.timestamp && TakerOf(d2, a2).timestamp == a2.timestamp
    ensures TakerOf(d1, a1).side == a1.side == TakerOf(d2, a2).side
  {
    var t1, t2, opp := DeskMatch(d1, a1).taker, DeskMatch(d2, a2).taker, a1.side.Opposite();
    MatchKeepsTerms(Deterministic, a1, d1.Queue(opp), MAX_ITERATIONS);
    MatchKeepsTerms(Deterministic, a2, d2.Queue(opp), MAX_ITERATIONS);
    assert Bare(t1).remaining == t1.remaining && Bare(t2).remaining == t2.remaining;
    assert Bare(t1).filled == t1.filled && Bare(t2).filled == t2.filled;
    if a1.typ.Limit? {
      MatchKeepsStatus(Deterministic, a1, d1.Queue(opp), MAX_ITERATIONS);
      MatchKeepsStatus(Deterministic, a2, d2.Queue(opp), MAX_ITERATIONS);
    }
  }

  lemma SameJoined(d1: Desk, d2: Desk, o1: Ord, o2: Ord)
    requires SameDesk(d1, d2) && Bare(o1) == Bare(o2) && o1.side == o2.side && (Rests(o1) <==> Rests(o2))
    requires NoLater(d1.Queue(o1.side), o1) && NoLater(d2.Queue(o2.side), o2)
    ensures SameDesk(Joined(d1, o1), Joined(d2, o2))
  {
    if Rests(o1) {
      BareQueueInsert(o1.side.Buy?, d1.Queue(o1.side), d2.Queue(o1.side), o1, o2);
    }
  }

  lemma OwnNoLater(emit: bool, d: Desk, a: Ord, n: nat)
    requires DeskSound(d, n) && SequenceToTimestamp(n) <= a.timestamp
    ensures NoLater(DeskMatched(emit, d, a).Queue(a.side), a)
  {
    var q := d.Queue(a.side);
    forall i | 0 <= i < |q| ensures q[i].timestamp <= a.timestamp {
      assert Sound(q[i], a.side, n, SequenceToTimestamp(n));
    }
  }

  /** The same order handled on two desks that agree leaves them agreeing, whatever its numbers there. */
  lemma SameHandled(e1: bool, e2: bool, d1: Desk, d2: Desk, o1: Ord, o2: Ord, n1: nat, n2: nat, s1: nat, s2: nat)
    requires SameDesk(d1, d2) && DeskSound(d1, n1) && DeskSound(d2, n2) && n1 <= s1 && n2 <= s2
    requires Bare(o1) == Bare(o2) && Fresh(o1) && Fresh(o2) && o1.side == o2.side && o1.typ == o2.typ
      && o1.quantity == o2.quantity
    ensures SameDesk(Handled(e1, d1, o1, s1), Handled(e2, d2, o2, s2))
  {
    var a1, a2 := At(o1, s1), At(o2, s2);
    assert Bare(a1) == Bare(o1) && Bare(a2) == Bare(o2);
    SameDeskMatched(e1, e2, d1, d2, a1, a2, n1, n2);
    SameTakerOf(d1, d2, a1, a2);
    OwnNoLater(e1, d1, a1, n1);
    OwnNoLater(e2, d2, a2, n2);
    SameJoined(DeskMatched(e1, d1, a1), DeskMatched(e2, d2, a2), TakerOf(d1, a1), TakerOf(d2, a2));
  }

  // ---- The log of a run -------------------------------------------------------------------

  /** Contiguous numbers from 1. */
  ghost predicate Numbered(log: seq<Event>) { forall i :: 0 <= i < |log| ==> log[i].sequence == i + 1 }

  lemma {:induction false} NumberedLatest(log: seq<Event>)
    requires Numbered(log)
    ensures Latest(log) == |log| && Ascending(log)
  {
    if log != [] { NumberedLatest(log[..|log| - 1]); }
  }

  lemma LoggedNumbered(log: seq<Event>, p: Payload, instrument: nat)
    requires Numbered(log)
    ensures Numbered(Logged(log, p, instrument)) && |Logged(log, p, instrument)| == |log| + 1
    ensures Logged(log, p, instrument)[|log|] == Event(p, |log| + 1, SequenceToTimestamp(|log| + 1), instrument)
    ensures Logged(log, p, instrument)[..|log|] == log
  {
    NumberedLatest(log);
  }

  /** What the log says of the `i`-th trade of `taker`, whose own event was the last before `from`. */
  ghost predicate Audited(log: seq<Event>, from: nat, taker: Ord, f: Fill, i: nat) {
    var k := from + 2 * i;
    && k + 1 < |log|
    && log[k] == Event(MatchedPayload(taker, f), k + 1, SequenceToTimestamp(k + 1), 0)
    && log[k + 1] == Event(TradeExecuted(TradeAt(taker, f, k + 1)), k + 2, SequenceToTimestamp(k + 2), taker.instrument)
  }

  /** One more trade: its two events at the end of the log. */
  lemma TradeAudited(before: seq<Event>, taker: Ord, f: Fill)
    requires Numbered(before)
    ensures var log' := Logged(Logged(before, MatchedPayload(taker, f), 0),
      TradeExecuted(TradeAt(taker, f, |before| + 1)), taker.instrument);
      && Numbered(log') && |log'| == |before| + 2 && log'[..|before|] == before
      && Audited(log', |before|, taker, f, 0)
  {
    var more := Logged(before, MatchedPayload(taker, f), 0);
    LoggedNumbered(before, MatchedPayload(taker, f), 0);
    LoggedNumbered(more, TradeExecuted(TradeAt(taker, f, |before| + 1)), taker.instrument);
  }

  ghost predicate AllAudited(log: seq<Event>, from: nat, taker: Ord, f: seq<Fill>) {
    forall i :: 0 <= i < |f| ==> Audited(log, from, taker, f[i], i)
  }

  /** Each trade leaves a matched event with the trade's own number, then an executed event with the next. */
  lemma {:induction false} TradesAudited(log: seq<Event>, taker: Ord, f: seq<Fill>)
    requires Numbered(log)
    ensures var log' := LoggedTrades(log, taker, f);
      && Numbered(log') && |log'| == |log| + 2 * |f| && log'[..|log|] == log && AllAudited(log', |log|, taker, f)
  {
    if f != [] {
      var init, last := f[..|f| - 1], f[|f| - 1];
      TradesAudited(log, taker, init);
      OneMoreAudited(log, LoggedTrades(log, taker, init), taker, init, last);
      assert f == init + [last];
    }
  }

  lemma OneMoreAudited(log: seq<Event>, before: seq<Event>, taker: Ord, init: seq<Fill>, last: Fill)
    requires Numbered(before) && |before| == |log| + 2 * |init| && before[..|log|] == log
    requires AllAudited(before, |log|, taker, init)
    ensures var t := TradeAt(taker, last, Latest(before) + 1);
      var log' := Logged(Logged(before, MatchedPayload(taker, last), 0), TradeExecuted(t), t.instrument);
      && Numbered(log') && |log'| == |before| + 2 && log'[..|log|] == log
         && AllAudited(log', |log|, taker, init + [last])
  {
    NumberedLatest(before);
    TradeAudited(before, taker, last);
    var t := TradeAt(taker, last, Latest(before) + 1);
    var log' := Logged(Logged(before, MatchedPayload(taker, last), 0), TradeExecuted(t), t.instrument);
    assert log'[..|log|] == before[..|log|];
    forall i | 0 <= i < |init| ensures Audited(log', |log|, taker, (init + [last])[i], i) {
      assert Audited(before, |log|, taker, init[i], i);
      assert log'[|log| + 2 * i] == before[|log| + 2 * i] && log'[|log| + 2 * i + 1] == before[|log| + 2 * i + 1];
    }
  }

  // ---- Runs -------------------------------------------------------------------------------

  /** An accepted order is logged under its own number, and each of its trades as a matched event with
      the trade's number followed by an executed event with the next one. */
  lemma OrderAudited(s: Session, o: Ord)
    requires Numbered(s.log) && Admissible(o)
    ensures var a, log' := At(o, |s.log| + 1), ProcessEs(s, o).log; var f := DeskMatch(s.desk, a).fills;
      && Numbered(log') && |log'| == |s.log| + 1 + 2 * |f| && log'[..|s.log|] == s.log
      && log'[|s.log|] == Event(PlacedPayload(o), a.sequence, a.timestamp, o.instrument)
      && AllAudited(log', |s.log| + 1, a, f)
      && ProcessEs(s, o).desk.trades == s.desk.trades + DeskTrades(true, a, f)
  {
    var a := At(o, |s.log| + 1);
    NumberedLatest(s.log);
    LoggedNumbered(s.log, PlacedPayload(o), o.instrument);
    var placed := Logged(s.log, PlacedPayload(o), o.instrument);
    TradesAudited(placed, a, DeskMatch(s.desk, a).fills);
    var log' := ProcessEs(s, o).log;
    assert log'[..|s.log|] == placed[..|s.log|];
    assert log'[|s.log|] == placed[|s.log|];
  }

  ghost predicate NewRequests(rs: seq<Request>) {
    forall i :: 0 <= i < |rs| && rs[i].Submit? ==> Fresh(rs[i].order)
  }

  /** The numbers of a run's events are 1, 2, 3, ... and the log only grows. */
  lemma {:induction false} RunNumbered(rs: seq<Request>)
    ensures Numbered(SessionRun(rs).log)
  {
    if rs != [] {
      var s, r := SessionRun(rs[..|rs| - 1]), rs[|rs| - 1];
      RunNumbered(rs[..|rs| - 1]);
      if r.Submit? {
        if Admissible(r.order) { OrderAudited(s, r.order); }
        else { LoggedNumbered(s.log, OrderRejected(r.order.id, r.order.user, "Validation failed"), 0); }
      }
    }
  }

  /** Trade events change nothing on replay. */
  lemma {:induction false} ReplaySkipsTrades(log: seq<Event>, taker: Ord, f: seq<Fill>, latest: nat)
    ensures Replay(LoggedTrades(log, taker, f), latest) == Replay(log, latest)
  {
    if f != [] {
      var n := |f| - 1;
      var before := LoggedTrades(log, taker, f[..n]);
      var t := TradeAt(taker, f[n], Latest(before) + 1);
      ReplaySkipsTrades(log, taker, f[..n], latest);
      ReplayLogged(before, MatchedPayload(taker, f[n]), 0, latest);
      ReplayLogged(Logged(before, MatchedPayload(taker, f[n]), 0), TradeExecuted(t), t.instrument, latest);
    }
  }

  lemma ReplayLogged(log: seq<Event>, p: Payload, instrument: nat, latest: nat)
    ensures var log' := Logged(log, p, instrument);
      Replay(log', latest) == ReplayOne(Replay(log, latest), log'[|log|], latest)
  {
    var log' := Logged(log, p, instrument);
    assert log'[..|log'| - 1] == log;
  }

  lemma IdleSound(n: nat)
    ensures DeskSound(IDLE, n)
  {
    assert OrdKeys([]) == [];
  }

  lemma SessionStarts(latest: nat)
    ensures SameDesk(Replay([], latest), OPENING.desk) && DeskSound(OPENING.desk, 0)
      && DeskSound(Replay([], latest), latest + 1)
  {
    IdleSound(0);
    IdleSound(latest + 1);
  }

  lemma DeskLater(d: Desk, n: nat, m: nat)
    requires DeskSound(d, n) && n <= m
    ensures DeskSound(d, m)
  {
    QueueLater(d.bids, Buy, n, m, SequenceToTimestamp(n), SequenceToTimestamp(m));
    QueueLater(d.asks, Sell, n, m, SequenceToTimestamp(n), SequenceToTimestamp(m));
  }

  /** What a session and its replay agree on. */
  ghost predicate Agrees(s: Session, latest: nat) {
    && SameDesk(Replay(s.log, latest), s.desk) && DeskSound(s.desk, |s.log|)
    && DeskSound(Replay(s.log, latest), latest + 1)
  }

  lemma SubmitAgrees(s: Session, o: Ord, latest: nat)
    requires Numbered(s.log) && Agrees(s, latest) && Fresh(o) && Admissible(o)
    ensures Agrees(ProcessEs(s, o), latest)
  {
    var n := |s.log|;
    var a, d, placed := At(o, n + 1), Replay(s.log, latest), Logged(s.log, PlacedPayload(o), o.instrument);
    OrderAudited(s, o);
    NumberedLatest(s.log);
    LoggedNumbered(s.log, PlacedPayload(o), o.instrument);
    ReplayLogged(s.log, PlacedPayload(o), o.instrument, latest);
    ReplaySkipsTrades(placed, a, DeskMatch(s.desk, a).fills, latest);
    var o' := Rebuilt(placed[n]);
    assert Bare(o') == Bare(o) && Fresh(o') && Admissible(o');
    SameHandled(false, true, d, s.desk, o', o, latest + 1, n, latest + 1, n + 1);
    HandledSound(true, s.desk, o, n, n + 1);
    HandledSound(false, d, o', latest + 1, latest + 1);
    DeskLater(Handled(true, s.desk, o, n + 1), n + 1, |ProcessEs(s, o).log|);
  }

  lemma RejectAgrees(s: Session, o: Ord, latest: nat)
    requires Numbered(s.log) && Agrees(s, latest) && !Admissible(o)
    ensures Agrees(ProcessEs(s, o), latest)
  {
    var p := OrderRejected(o.id, o.user, "Validation failed");
    LoggedNumbered(s.log, p, 0);
    ReplayLogged(s.log, p, 0, latest);
    DeskLater(s.desk, |s.log|, |s.log| + 1);
  }

  /** Replaying the log of any run, with emission off, rebuilds the run's books in the same order and with
      the same quantities, and makes the same trades up to numbers and times. */
  lemma {:induction false} ReplayRebuilds(rs: seq<Request>, latest: nat)
    requires NewRequests(rs)
    ensures Agrees(SessionRun(rs), latest)
    ensures SameDesk(Replay(SessionRun(rs).log, latest), SessionRun(rs).desk)
  {
    if rs == [] {
      SessionStarts(latest);
    } else {
      var init, r := rs[..|rs| - 1], rs[|rs| - 1];
      ReplayRebuilds(init, latest);
      RunNumbered(init);
      match r
      case Submit(o) =>
        if Admissible(o) {
          SubmitAgrees(SessionRun(init), o, latest);
        } else {
          RejectAgrees(SessionRun(init), o, latest);
        }
      case CancelEs(_, _) =>
    }
  }

  /** The session has numbered its events, and its books are sound. */
  lemma SessionSound(rs: seq<Request>)
    requires NewRequests(rs)
    ensures var s := SessionRun(rs); Latest(s.log) == |s.log| && DeskSound(s.desk, |s.log|)
  {
    RunNumbered(rs);
    NumberedLatest(SessionRun(rs).log);
    ReplayRebuilds(rs, 0);
  }

  // ---- Who the log is about -----------------------------------------------------------------

  ghost predicate PlacedBy(log: seq<Event>, id: nat) {
    exists i :: 0 <= i < |log| && log[i].payload.OrderPlaced? && log[i].payload.order == id
  }

  /** No two placed events are about the same order. */
  ghost predicate DistinctOrders(log: seq<Event>) {
    forall i, j :: 0 <= i < j < |log| && log[i].payload.OrderPlaced? && log[j].payload.OrderPlaced? ==>
      log[i].payload.order != log[j].payload.order
  }

  /** Which trade the `j`-th event of an audited stretch is about. */
  lemma AuditTells(log: seq<Event>, from: nat, taker: Ord, f: seq<Fill>, j: nat)
    requires AllAudited(log, from, taker, f) && from <= j < from + 2 * |f| && j < |log|
    ensures log[j].payload == MatchedPayload(taker, f[(j - from) / 2]) || log[j].payload.TradeExecuted?
  {
    assert Audited(log, from, taker, f[(j - from) / 2], (j - from) / 2);
  }

  /** The events behind an order's own are not placed events, and their makers come from the queue. */
  lemma TradeEventsTell(s: Session, o: Ord, j: nat)
    requires Numbered(s.log) && Admissible(o) && DeskSound(s.desk, |s.log|) && Fresh(o)
    requires |s.log| < j < |ProcessEs(s, o).log|
    ensures var p := ProcessEs(s, o).log[j].payload;
      && (p.OrderMatched? || p.TradeExecuted?)
      && (p.OrderMatched? ==> p.taker == o.id && HasId(s.desk.Queue(o.side.Opposite()), p.maker))
  {
    var a, n := At(o, |s.log| + 1), |s.log| + 1;
    var q, f := s.desk.Queue(o.side.Opposite()), DeskMatch(s.desk, a).fills;
    OrderAudited(s, o);
    AuditTells(ProcessEs(s, o).log, n, a, f, j);
    SoundResting(a, q, o.side.Opposite(), |s.log|, SequenceToTimestamp(|s.log|));
    MakersFromQueue(Deterministic, a, q, MAX_ITERATIONS, (j - n) / 2);
  }

  ghost predicate AllPlaced(log: seq<Event>, q: seq<Ord>) {
    forall i :: 0 <= i < |q| ==> PlacedBy(log, q[i].id)
  }

  /** Every resting order and every party to a trade has its placed event in the log. */
  ghost predicate Traceable(s: Session) {
    && AllPlaced(s.log, s.desk.bids) && AllPlaced(s.log, s.desk.asks)
    && forall j :: 0 <= j < |s.log| && s.log[j].payload.OrderMatched? ==>
         PlacedBy(s.log, s.log[j].payload.taker) && PlacedBy(s.log, s.log[j].payload.maker)
  }

  lemma PlacedStays(log: seq<Event>, log': seq<Event>)
    requires |log| <= |log'| && log'[..|log|] == log
    ensures forall id :: PlacedBy(log, id) ==> PlacedBy(log', id)
  {
    assert forall i :: 0 <= i < |log| ==> log'[i] == log[i];
  }

  lemma MatchedResidents(q: seq<Ord>, a: Ord, n: nat, i: nat)
    requires QueueSound(q, a.side.Opposite(), n, SequenceToTimestamp(n)) && a.remaining >= 0
    requires i < |Match(Deterministic, a, q, MAX_ITERATIONS).book|
    ensures HasId(q, Match(Deterministic, a, q, MAX_ITERATIONS).book[i].id)
  {
    var out := Match(Deterministic, a, q, MAX_ITERATIONS);
    QueueMatched(Deterministic, a, q, MAX_ITERATIONS, a.side.Opposite(), n, SequenceToTimestamp(n));
    assert SameOrder(out.book[i], q[|out.gone| + i]);
  }

  lemma JoinedResidents(d: Desk, o: Ord, side: Side, i: nat)
    requires i < |Joined(d, o).Queue(side)|
    ensures Joined(d, o).Queue(side)[i].id == o.id || HasId(d.Queue(side), Joined(d, o).Queue(side)[i].id)
  {
    var q := d.Queue(side);
    if Rests(o) && side == o.side {
      var n := Position(side.Buy?, OrdKeys(q), Key(o.price, o.timestamp));
      assert Joined(d, o).Queue(side)[i] == if i == n then o else q[if i < n then i else i - 1];
    }
  }

  lemma HasWhere(q: seq<Ord>, id: nat) returns (i: nat)
    requires HasId(q, id)
    ensures i < |q| && q[i].id == id
  {
    i :| 0 <= i < |q| && q[i].id == id;
  }

  /** Whoever rests after an order rested before it, or is the order. */
  lemma HandledResidents(emit: bool, d: Desk, o: Ord, n: nat, stamp: nat, side: Side, i: nat)
    requires DeskSound(d, n) && Fresh(o) && Admissible(o) && i < |Handled(emit, d, o, stamp).Queue(side)|
    ensures var id := Handled(emit, d, o, stamp).Queue(side)[i].id; id == o.id || HasId(d.Queue(side), id)
  {
    var a := At(o, stamp);
    var m, t, id := DeskMatched(emit, d, a), TakerOf(d, a), Handled(emit, d, o, stamp).Queue(side)[i].id;
    MatchKeepsTerms(Deterministic, a, d.Queue(a.side.Opposite()), MAX_ITERATIONS);
    JoinedResidents(m, t, side, i);
    if id != o.id && side != a.side {
      var k := HasWhere(m.Queue(side), id);
      MatchedResidents(d.Queue(side), a, n, k);
    }
  }

  lemma ResidentsPlaced(s: Session, o: Ord, log': seq<Event>, side: Side)
    requires Traceable(s) && DeskSound(s.desk, |s.log|) && Fresh(o) && Admissible(o) && PlacedBy(log', o.id)
    requires forall id :: PlacedBy(s.log, id) ==> PlacedBy(log', id)
    ensures AllPlaced(log', Handled(true, s.desk, o, |s.log| + 1).Queue(side))
  {
    var q := Handled(true, s.desk, o, |s.log| + 1).Queue(side);
    forall i | 0 <= i < |q| ensures PlacedBy(log', q[i].id) {
      HandledResidents(true, s.desk, o, |s.log|, |s.log| + 1, side, i);
      HeldPlaced(s, side, q[i].id);
    }
  }

  lemma HeldPlaced(s: Session, side: Side, id: nat)
    requires Traceable(s)
    ensures HasId(s.desk.Queue(side), id) ==> PlacedBy(s.log, id)
  {
  }

  lemma MatchesPlaced(s: Session, o: Ord, j: nat)
    requires Numbered(s.log) && Traceable(s) && DeskSound(s.desk, |s.log|) && Fresh(o) && Admissible(o)
    requires j < |ProcessEs(s, o).log| && ProcessEs(s, o).log[j].payload.OrderMatched?
    ensures var p := ProcessEs(s, o).log[j].payload;
      && (p.taker == o.id || PlacedBy(s.log, p.taker)) && PlacedBy(s.log, p.maker)
  {
    OrderAudited(s, o);
    if j > |s.log| {
      TradeEventsTell(s, o, j);
      HeldPlaced(s, o.side.Opposite(), ProcessEs(s, o).log[j].payload.maker);
    } else {
      assert j < |s.log| ==> ProcessEs(s, o).log[j] == s.log[j];
    }
  }

  lemma OwnPlaced(s: Session, o: Ord)
    requires Numbered(s.log) && Admissible(o)
    ensures var log' := ProcessEs(s, o).log;
      PlacedBy(log', o.id) && forall id :: PlacedBy(s.log, id) ==> PlacedBy(log', id)
  {
    OrderAudited(s, o);
    PlacedStays(s.log, ProcessEs(s, o).log);
    assert ProcessEs(s, o).log[|s.log|].payload == PlacedPayload(o);
  }

  lemma MatchesAllPlaced(s: Session, o: Ord)
    requires Numbered(s.log) && Traceable(s) && DeskSound(s.desk, |s.log|) && Fresh(o) && Admissible(o)
    ensures var log' := ProcessEs(s, o).log;
      forall j :: 0 <= j < |log'| && log'[j].payload.OrderMatched? ==>
        PlacedBy(log', log'[j].payload.taker) && PlacedBy(log', log'[j].payload.maker)
  {
    var log' := ProcessEs(s, o).log;
    OwnPlaced(s, o);
    forall j | 0 <= j < |log'| && log'[j].payload.OrderMatched?
      ensures PlacedBy(log', log'[j].payload.taker) && PlacedBy(log', log'[j].payload.maker)
    {
      MatchesPlaced(s, o, j);
    }
  }

  lemma DeskOf(s: Session, o: Ord)
    requires Numbered(s.log) && Admissible(o)
    ensures ProcessEs(s, o).desk == Handled(true, s.desk, o, |s.log| + 1)
  {
    NumberedLatest(s.log);
  }

  lemma SubmitTraceable(s: Session, o: Ord)
    requires Numbered(s.log) && Traceable(s) && DeskSound(s.desk, |s.log|) && Fresh(o) && Admissible(o)
    ensures Traceable(ProcessEs(s, o))
  {
    var log' := ProcessEs(s, o).log;
    DeskOf(s, o);
    OwnPlaced(s, o);
    ResidentsPlaced(s, o, log', Buy);
    ResidentsPlaced(s, o, log', Sell);
    MatchesAllPlaced(s, o);
  }

  lemma RejectTraceable(s: Session, o: Ord)
    requires Numbered(s.log) && Traceable(s) && !Admissible(o)
    ensures Traceable(ProcessEs(s, o))
  {
    var p := OrderRejected(o.id, o.user, "Validation failed");
    var log' := Logged(s.log, p, 0);
    LoggedNumbered(s.log, p, 0);
    PlacedStays(s.log, log');
    assert forall j :: 0 <= j < |s.log| ==> log'[j] == s.log[j];
  }

  /** In the log of any run every order that traded or rests was placed before. */
  lemma {:induction false} RunTraceable(rs: seq<Request>)
    requires NewRequests(rs)
    ensures Traceable(SessionRun(rs))
  {
    if rs != [] {
      var init, r := rs[..|rs| - 1], rs[|rs| - 1];
      RunTraceable(init);
      RunNumbered(init);
      ReplayRebuilds(init, 0);
      match r
      case Submit(o) =>
        if Admissible(o) { SubmitTraceable(SessionRun(init), o); } else { RejectTraceable(SessionRun(init), o); }
      case CancelEs(_, _) =>
    }
  }

  lemma {:induction false} PlacedIndexed(log: seq<Event>, id: nat)
    requires PlacedBy(log, id)
    ensures id in OrderIndex(log)
  {
    var init := log[..|log| - 1];
    var i :| 0 <= i < |log| && log[i].payload.OrderPlaced? && log[i].payload.order == id;
    if i < |log| - 1 {
      assert init[i] == log[i];
      PlacedIndexed(init, id);
    }
  }

  lemma {:induction false} UnmentionedAll(log: seq<Event>, id: nat)
    requires forall j :: 0 <= j < |log| ==> !Mentions(log[j], id)
    ensures Mentioning(log, id) == []
  {
    if log != [] { UnmentionedAll(log[1..], id); }
  }

  /** Neither a cancellation nor anything this engine does not write. */
  predicate Uncancelled(p: Payload) { !p.OrderCancelled? && !p.Unlisted? }

  lemma {:induction false} CancelledNever(rs: seq<Request>)
    ensures forall j :: 0 <= j < |SessionRun(rs).log| ==> Uncancelled(SessionRun(rs).log[j].payload)
    ensures Numbered(SessionRun(rs).log)
  {
    RunNumbered(rs);
    if rs != [] {
      var init, r := rs[..|rs| - 1], rs[|rs| - 1];
      CancelledNever(init);
      if r.Submit? { NoneCancelled(SessionRun(init), r.order); }
    }
  }

  lemma NoneCancelled(s: Session, o: Ord)
    requires Numbered(s.log) && forall j :: 0 <= j < |s.log| ==> Uncancelled(s.log[j].payload)
    ensures forall j :: 0 <= j < |ProcessEs(s, o).log| ==> Uncancelled(ProcessEs(s, o).log[j].payload)
  {
    var log' := ProcessEs(s, o).log;
    if Admissible(o) {
      var a := At(o, |s.log| + 1);
      OrderAudited(s, o);
      forall j | 0 <= j < |log'| ensures Uncancelled(log'[j].payload) {
        if j > |s.log| { AuditTells(log', |s.log| + 1, a, DeskMatch(s.desk, a).fills, j); }
        else { assert j < |s.log| ==> log'[j] == s.log[j]; }
      }
    }
  }

  /** The index hides nothing: for an order other than 0, no event of a run is about an unindexed order. */
  lemma QueryComplete(rs: seq<Request>, order: nat)
    requires NewRequests(rs) && order != 0
    ensures (if order in OrderIndex(SessionRun(rs).log) then Mentioning(SessionRun(rs).log, order) else [])
         == Mentioning(SessionRun(rs).log, order)
  {
    var log := SessionRun(rs).log;
    RunTraceable(rs);
    CancelledNever(rs);
    if order !in OrderIndex(log) {
      forall j | 0 <= j < |log| ensures !Mentions(log[j], order) {
        NotMentioned(SessionRun(rs), order, j);
      }
      UnmentionedAll(log, order);
    }
  }

  lemma NotMentioned(s: Session, order: nat, j: nat)
    requires Traceable(s) && order != 0 && order !in OrderIndex(s.log) && j < |s.log|
      && Uncancelled(s.log[j].payload)
    ensures !Mentions(s.log[j], order)
  {
    if PlacedBy(s.log, order) { PlacedIndexed(s.log, order); }
  }

  /** A run of orders with ids of their own places no id twice. */
  ghost predicate DistinctRequests(rs: seq<Request>) {
    forall i, j :: 0 <= i < j < |rs| && rs[i].Submit? && rs[j].Submit? ==> rs[i].order.id != rs[j].order.id
  }

  ghost predicate Submitted(rs: seq<Request>, id: nat) {
    exists i :: 0 <= i < |rs| && rs[i].Submit? && rs[i].order.id == id
  }

  lemma PlacedOnce(s: Session, o: Ord)
    requires Numbered(s.log) && DistinctOrders(s.log) && !PlacedBy(s.log, o.id)
    ensures DistinctOrders(ProcessEs(s, o).log)
    ensures forall id :: PlacedBy(ProcessEs(s, o).log, id) ==> PlacedBy(s.log, id) || id == o.id
  {
    var log', n := ProcessEs(s, o).log, |s.log|;
    if Admissible(o) {
      var a := At(o, n + 1);
      OrderAudited(s, o);
      forall j | n < j < |log'| ensures !log'[j].payload.OrderPlaced? {
        AuditTells(log', n + 1, a, DeskMatch(s.desk, a).fills, j);
      }
    }
    assert forall j :: 0 <= j < n ==> log'[j] == s.log[j];
  }

  lemma {:induction false} RunDistinct(rs: seq<Request>)
    requires DistinctRequests(rs)
    ensures DistinctOrders(SessionRun(rs).log)
    ensures forall id :: PlacedBy(SessionRun(rs).log, id) ==> Submitted(rs, id)
  {
    if rs != [] {
      var init, r := rs[..|rs| - 1], rs[|rs| - 1];
      RunDistinct(init);
      RunNumbered(init);
      assert forall i :: 0 <= i < |init| ==> init[i] == rs[i];
      if r.Submit? { PlacedOnce(SessionRun(init), r.order); }
    }
  }
}
