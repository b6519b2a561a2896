/** The classic engine and the event-sourced one on one stream of LIMIT orders: the same books and the same trades, up
    to statuses, numbers and times. */
module EnginesAgree {
  import opened Orders
  import opened Priority
  import opened PriceLevels
  import opened Matching
  import opened Market
  import opened MarketBook
  import opened MarketRuns
  import opened MarketDeterminism
  import opened EventRuns
  import opened Events
  import opened EventLog

  /** New LIMIT orders for the instrument, each with an id of its own. */
  ghost predicate LimitStream(instrument: nat, os: seq<Ord>) {
    && (forall i :: 0 <= i < |os| ==> Fresh(os[i]) && os[i].typ.Limit? && os[i].instrument == instrument)
    && forall i, j :: 0 <= i < j < |os| ==> os[i].id != os[j].id
  }

  function Placements(os: seq<Ord>): (ops: seq<Op>)
    ensures |ops| == |os| && forall i :: 0 <= i < |os| ==> ops[i] == Place(os[i])
  {
    seq(|os|, i requires 0 <= i < |os| => Place(os[i]))
  }

  function Submissions(os: seq<Ord>): (rs: seq<Request>)
    ensures |rs| == |os| && forall i :: 0 <= i < |os| ==> rs[i] == Submit(os[i])
  {
    seq(|os|, i requires 0 <= i < |os| => Submit(os[i]))
  }

  /** The market of the one engine and the desk of the other. */
  ghost predicate Alike(s: State, d: Desk) {
    && BareAll(s.bids.queue) == BareAll(d.bids) && BareAll(s.asks.queue) == BareAll(d.asks)
    && s.count == d.count && s.volume == d.volume && BareTapes(s.tape) == BareTapes(d.trades)
  }

  // ---- One order ----------------------------------------------------------------------------

  lemma TradeAlike(w: World, t1: Ord, t2: Ord, f1: Fill, f2: Fill, n1: nat, n2: nat, now: int)
    requires Bare(t1) == Bare(t2) && Bare(f1.maker) == Bare(f2.maker) && f1.quantity == f2.quantity
    requires f1.maker.sequence < t1.sequence && t1.instrument == w.instrument
    ensures TradeOf(w.instrument, t1, f1, n1, now).(timestamp := 0, sequence := 0)
         == TradeAt(t2, f2, n2).(timestamp := 0, sequence := 0)
  {
    assert Bare(t1).side == t1.side && Bare(t2).side == t2.side && Bare(t1).id == t1.id && Bare(t2).id == t2.id;
    assert Bare(t1).user == t1.user && Bare(t2).user == t2.user && Bare(t2).instrument == t2.instrument;
    var m1, m2 := Bare(f1.maker), Bare(f2.maker);
    assert m1.id == f1.maker.id && m2.id == f2.maker.id && m1.user == f1.maker.user && m2.user == f2.maker.user;
    assert m1.price == f1.maker.price && m2.price == f2.maker.price;
  }

  lemma TradesAlike(w: World, t1: Ord, t2: Ord, f1: seq<Fill>, f2: seq<Fill>, n: nat, k: nat)
    requires Bare(t1) == Bare(t2) && BareFills(f1) == BareFills(f2) && Newest(t1, f1) && t1.instrument == w.instrument
    ensures BareTapes(TradesOf(w, t1, f1, n, k)) == BareTapes(DeskTrades(true, t2, f2))
  {
    assert |BareFills(f1)| == |f1| && |BareFills(f2)| == |f2|;
    var a, b := BareTapes(TradesOf(w, t1, f1, n, k)), BareTapes(DeskTrades(true, t2, f2));
    forall i | 0 <= i < |f1| ensures a[i] == b[i] {
      assert BareFills(f1)[i] == BareFills(f2)[i];
      TradeAlike(w, t1, t2, f1[i], f2[i], n + 1 + i, TradeStamp(true, t2.sequence, i), w.clock(k + i));
    }
  }

  /** An order arriving at both. */
  ghost predicate Meets(w: World, s: State, d: Desk, o: Ord, n: nat, stamp: nat) {
    && NeverBackwards(w) && BookSound(w, s) && DeskSound(d, n) && n <= stamp && Alike(s, d)
    && Fresh(o) && o.typ.Limit? && o.instrument == w.instrument && Acceptable(w, o) && o.id !in s.owned
  }

  lemma MatchesAlike(w: World, s: State, d: Desk, o: Ord, n: nat, stamp: nat)
    requires Meets(w, s, d, o, n, stamp)
    ensures SameOutcome(MatchOf(w, s, o), DeskMatch(d, At(o, stamp)))
    ensures Newest(Arrived(w, s, o), MatchOf(w, s, o).fills)
  {
    var side, a1, a2 := o.side.Opposite(), Arrived(w, s, o), At(o, stamp);
    var q1, q2 := s.Side(side).queue, d.Queue(side);
    SoundResting(a1, q1, side, s.sequence, w.clock(s.tick));
    SoundResting(a2, q2, side, n, SequenceToTimestamp(n));
    MatchAgrees(Classic, Deterministic, a1, a2, q1, q2, MAX_ITERATIONS);
    FillsNewest(Classic, a1, q1, MAX_ITERATIONS, s.sequence);
  }

  lemma MatchedAlike(w: World, s: State, d: Desk, o: Ord, n: nat, stamp: nat)
    requires Meets(w, s, d, o, n, stamp)
    ensures Alike(Matched(w, s, o), DeskMatched(true, d, At(o, stamp)))
  {
    MatchesAlike(w, s, d, o, n, stamp);
    OutcomesAlike(w, s, d, o, stamp, MatchOf(w, s, o), DeskMatch(d, At(o, stamp)));
  }

  lemma OutcomesAlike(w: World, s: State, d: Desk, o: Ord, stamp: nat, out1: Outcome, out2: Outcome)
    requires Alike(s, d) && SameOutcome(out1, out2) && out2 == DeskMatch(d, At(o, stamp))
    requires Newest(Arrived(w, s, o), out1.fills) && o.instrument == w.instrument
    ensures Alike(AfterTrades(w, s, o, out1), DeskMatched(true, d, At(o, stamp)))
  {
    CountsAlike(out1.fills, out2.fills);
    TapesAlike(w, s, d, o, At(o, stamp), out1.fills, out2.fills);
    var side := o.side.Opposite();
    assert AfterTrades(w, s, o, out1).Side(side).queue == out1.book;
    assert DeskMatched(true, d, At(o, stamp)).Queue(side) == out2.book;
  }

  lemma CountsAlike(f1: seq<Fill>, f2: seq<Fill>)
    requires BareFills(f1) == BareFills(f2)
    ensures |f1| == |f2| && Volume(f1) == Volume(f2)
  {
    VolumeBare(f1);
    VolumeBare(f2);
    assert |BareFills(f1)| == |f1| && |BareFills(f2)| == |f2|;
  }

  lemma TapesAlike(w: World, s: State, d: Desk, o: Ord, a: Ord, f1: seq<Fill>, f2: seq<Fill>)
    requires BareTapes(s.tape) == BareTapes(d.trades) && BareFills(f1) == BareFills(f2)
    requires Bare(Arrived(w, s, o)) == Bare(a) && Newest(Arrived(w, s, o), f1) && o.instrument == w.instrument
    ensures BareTapes(s.tape + Printed(w, s, o, f1)) == BareTapes(d.trades + DeskTrades(true, a, f2))
  {
    TradesAlike(w, Arrived(w, s, o), a, f1, f2, s.sequence + 1, s.tick + 1);
    BareTapesConcat(s.tape, Printed(w, s, o, f1));
    BareTapesConcat(d.trades, DeskTrades(true, a, f2));
  }

  lemma TakersAlike(w: World, s: State, d: Desk, o: Ord, n: nat, stamp: nat)
    requires Meets(w, s, d, o, n, stamp)
    ensures var x, y := TakerAfter(w, s, o), TakerOf(d, At(o, stamp));
      && Bare(x) == Bare(y) && (Rests(x) <==> Rests(y)) && x.side == o.side == y.side && x.id == o.id
      && y.timestamp == At(o, stamp).timestamp
  {
    var side, a1, a2 := o.side.Opposite(), Arrived(w, s, o), At(o, stamp);
    var t1, t2 := MatchOf(w, s, o).taker, DeskMatch(d, a2).taker;
    MatchesAlike(w, s, d, o, n, stamp);
    MatchKeepsTerms(Classic, a1, s.Side(side).queue, MAX_ITERATIONS);
    MatchKeepsTerms(Deterministic, a2, d.Queue(side), MAX_ITERATIONS);
    MatchKeepsStatus(Classic, a1, s.Side(side).queue, MAX_ITERATIONS);
    MatchKeepsStatus(Deterministic, a2, d.Queue(side), MAX_ITERATIONS);
    assert Bare(t1).remaining == t1.remaining && Bare(t2).remaining == t2.remaining;
    assert Bare(t1).filled == t1.filled && Bare(t2).filled == t2.filled;
  }

  lemma PlacedAlike(s: State, d: Desk, x: Ord, y: Ord)
    requires Alike(s, d) && Bare(x) == Bare(y) && (Rests(x) <==> Rests(y)) && x.side == y.side && x.id !in s.owned
    requires NoLater(s.Side(x.side).queue, x) && NoLater(d.Queue(y.side), y)
    ensures Alike(Placed(s, x), Joined(d, y))
  {
    if Rests(x) { BareQueueInsert(x.side.Buy?, s.Side(x.side).queue, d.Queue(x.side), x, y); }
  }

  lemma OrderAlike(w: World, s: State, d: Desk, o: Ord, n: nat, stamp: nat)
    requires Meets(w, s, d, o, n, stamp)
    ensures Alike(Process(w, s, o), Handled(true, d, o, stamp))
  {
    var a := At(o, stamp);
    MatchedAlike(w, s, d, o, n, stamp);
    TakersAlike(w, s, d, o, n, stamp);
    QueueNoLater(w, s, o);
    OwnNoLater(true, d, a, n);
    assert o.id !in Matched(w, s, o).owned;
    PlacedAlike(Matched(w, s, o), DeskMatched(true, d, a), TakerAfter(w, s, o), TakerOf(d, a));
  }

  // ---- Streams ------------------------------------------------------------------------------

  lemma StreamOps(instrument: nat, os: seq<Ord>)
    requires LimitStream(instrument, os)
    ensures NewOrders(Placements(os)) && NewRequests(Submissions(os))
  {
  }

  lemma StreamMore(os: seq<Ord>, o: Ord)
    ensures Placements(os + [o]) == Placements(os) + [Place(o)]
    ensures Submissions(os + [o]) == Submissions(os) + [Submit(o)]
  {
  }

  lemma StreamInit(instrument: nat, os: seq<Ord>, o: Ord)
    requires LimitStream(instrument, os + [o])
    ensures LimitStream(instrument, os) && Fresh(o) && o.typ.Limit? && o.instrument == instrument
    ensures !PlacedIn(Placements(os), o.id)
  {
    var all := os + [o];
    assert all[|os|] == o && forall i :: 0 <= i < |os| ==> all[i] == os[i];
  }

  lemma OneMoreSubmitted(rs: seq<Request>, r: Request)
    ensures SessionRun(rs + [r]) == SessionStep(SessionRun(rs), r)
  {
    assert (rs + [r])[..|rs|] == rs;
  }

  lemma OneMoreAlike(w: World, os: seq<Ord>, o: Ord)
    requires NeverBackwards(w) && LimitStream(w.instrument, os + [o])
    requires Alike(Run(w, Placements(os)), SessionRun(Submissions(os)).desk)
    ensures Alike(Run(w, Placements(os + [o])), SessionRun(Submissions(os + [o])).desk)
  {
    var s, e := Run(w, Placements(os)), SessionRun(Submissions(os));
    StreamInit(w.instrument, os, o);
    StreamOps(w.instrument, os);
    StreamMore(os, o);
    RunMore(w, Placements(os), Place(o));
    OneMoreSubmitted(Submissions(os), Submit(o));
    RunHolds(w, Placements(os));
    SessionSound(Submissions(os));
    if Acceptable(w, o) { OrderAlike(w, s, e.desk, o, |e.log|, |e.log| + 1); }
  }

  /** After any stream of new LIMIT orders, whatever the clock: the same orders rest in the same order with the same
      quantities, and the same trades were made, up to statuses, numbers and times. */
  lemma {:induction false} StreamAgrees(w: World, os: seq<Ord>)
    requires NeverBackwards(w) && LimitStream(w.instrument, os)
    ensures Alike(Run(w, Placements(os)), SessionRun(Submissions(os)).desk)
  {
    if os != [] {
      var n := |os| - 1;
      assert os == os[..n] + [os[n]];
      StreamInit(w.instrument, os[..n], os[n]);
      StreamAgrees(w, os[..n]);
      OneMoreAlike(w, os[..n], os[n]);
    }
  }
}
