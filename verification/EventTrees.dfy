/** The trees of the event-sourced engine. Nobody leaves its books but filled makers, from the front, so below 2^500
    orders its trees stand in every session, and carry its books. */
module EventTrees {
  import opened Orders
  import opened Priority
  import opened PriceLevels
  import opened Matching
  import opened Market
  import opened MarketBook
  import opened MarketIndex
  import opened MarketLevels
  import opened MarketSteps
  import opened EventRuns
  import opened Events
  import opened EventLog
  import opened FrontRuns
  import opened OrderBook
  import B = BookRuns
  import RedBlack

  /** What an order that gets the number `stamp` does to one side of the book. */
  function StepsOfOrder(d: Desk, o: Ord, stamp: nat, side: Side): seq<B.Step> {
    var a := At(o, stamp);
    if side == o.side then EntrySteps(TakerOf(d, a)) else FillSteps(DeskMatch(d, a).fills, |DeskMatch(d, a).gone|)
  }

  function StepsOfRequest(s: Session, r: Request, side: Side): seq<B.Step> {
    match r
    case Submit(o) => if Admissible(o) then StepsOfOrder(s.desk, o, Latest(s.log) + 1, side) else []
    case CancelEs(_, _) => []
  }

  function StepsOfSession(rs: seq<Request>, side: Side): seq<B.Step> {
    if rs == [] then []
    else
      var n := |rs| - 1;
      StepsOfSession(rs[..n], side) + StepsOfRequest(SessionRun(rs[..n]), rs[n], side)
  }

  /** The picture has the queue `q`, of orders with ids of their own, each with a level. */
  ghost predicate Pictures(t: B.Picture, q: seq<Ord>) {
    B.Sized(t) && t.half.queue == q && Levelled(t.half) && Distinct(q)
  }

  /** The steps go through one after the other, lead to the queue `q`, take nobody out but the first, and let nobody
      in behind someone stamped later. */
  ghost predicate Brings(side: Side, t: B.Picture, steps: seq<B.Step>, q: seq<Ord>)
    requires B.Sized(t)
  {
    && B.Runs(side.Buy?, t, steps) && Pictures(B.After(side.Buy?, t, steps), q)
    && FrontOnly(side.Buy?, t, steps) && B.InTime(side.Buy?, t, steps)
  }

  // ---- One order ----------------------------------------------------------------------------

  lemma MatchedPictures(a: Ord, h: Half, side: Side, n: nat)
    requires Levelled(h) && Distinct(h.queue) && QueueSound(h.queue, side, n, SequenceToTimestamp(n))
    requires a.remaining >= 0
    ensures var out := Match(Deterministic, a, h.queue, MAX_ITERATIONS);
      Levelled(AfterMatch(h, out)) && AfterMatch(h, out).queue == out.book && Distinct(out.book)
  {
    QueueLive(h.queue, side, n);
    MatchedLevelled(a, h);
    MatchedDistinct(a, h.queue, side, n);
  }

  lemma QueueLive(q: seq<Ord>, side: Side, n: nat)
    requires QueueSound(q, side, n, SequenceToTimestamp(n))
    ensures Live(q)
  {
    forall i | 0 <= i < |q| ensures q[i].remaining > 0 && !q[i].status.Filled? {
      assert Sound(q[i], side, n, SequenceToTimestamp(n));
    }
  }

  lemma MatchedLevelled(a: Ord, h: Half)
    requires Levelled(h) && Live(h.queue) && a.remaining >= 0
    ensures var out := Match(Deterministic, a, h.queue, MAX_ITERATIONS);
      Levelled(AfterMatch(h, out)) && AfterMatch(h, out).queue == out.book
  {
    var out := Match(Deterministic, a, h.queue, MAX_ITERATIONS);
    QuietGreedy(Deterministic, a, h, MAX_ITERATIONS);
    QuietMatch(h, out);
    MatchIsGreedy(Deterministic, a, h.queue, MAX_ITERATIONS);
    GreedyPrices(Deterministic, a, h.queue, out);
  }

  lemma MatchedDistinct(a: Ord, q: seq<Ord>, side: Side, n: nat)
    requires Distinct(q) && QueueSound(q, side, n, SequenceToTimestamp(n)) && a.remaining >= 0
    ensures Distinct(Match(Deterministic, a, q, MAX_ITERATIONS).book)
  {
    var out := Match(Deterministic, a, q, MAX_ITERATIONS);
    QueueMatched(Deterministic, a, q, MAX_ITERATIONS, side, n, SequenceToTimestamp(n));
    BehindDistinct(q, |out.gone|, out.book);
  }

  lemma BehindDistinct(q: seq<Ord>, g: nat, rest: seq<Ord>)
    requires Behind(q, g, rest) && Distinct(q)
    ensures Distinct(rest)
  {
    forall i, j | 0 <= i < j < |rest| ensures rest[i].id != rest[j].id {
      assert SameOrder(rest[i], q[g + i]) && SameOrder(rest[j], q[g + j]);
    }
  }

  /** The side an order trades with. */
  lemma TradesBring(d: Desk, o: Ord, n: nat, stamp: nat, side: Side, t: B.Picture)
    requires DeskSound(d, n) && Fresh(o) && Admissible(o) && side == o.side.Opposite()
    requires Pictures(t, d.Queue(side))
    ensures Brings(side, t, StepsOfOrder(d, o, stamp, side), DeskMatch(d, At(o, stamp)).book)
  {
    var a, h := At(o, stamp), t.half;
    var out := DeskMatch(d, a);
    QueueLive(h.queue, side, n);
    MatchSteps(Deterministic, side.Buy?, a, t, MAX_ITERATIONS);
    MatchedPictures(a, h, side, n);
    FillNobody(out.fills, |out.gone|);
    B.NobodyEnters(side.Buy?, t, FillSteps(out.fills, |out.gone|));
  }

  lemma EnterPictures(buy: bool, h: Half, o: Ord)
    requires Levelled(h) && Distinct(h.queue) && o.remaining > 0 && !HasId(h.queue, o.id)
    ensures Levelled(WithOrder(buy, h, o)) && Distinct(WithOrder(buy, h, o).queue)
  {
    var h', n := WithOrder(buy, h, o), Position(buy, OrdKeys(h.queue), Key(o.price, o.timestamp));
    forall i, j | 0 <= i < j < |h'.queue| ensures h'.queue[i].id != h'.queue[j].id {
      assert i != n ==> h'.queue[i] == h.queue[if i < n then i else i - 1];
      assert j != n ==> h'.queue[j] == h.queue[if j < n then j else j - 1];
    }
    assert h'.since.Keys == h'.totals.Keys;
  }

  /** The side an order may join. */
  lemma EntryBrings(d: Desk, o: Ord, n: nat, stamp: nat, t: B.Picture)
    requires DeskSound(d, n) && n <= stamp && Fresh(o) && Admissible(o) && !HasId(d.Queue(o.side), o.id)
    requires Pictures(t, d.Queue(o.side))
    ensures Brings(o.side, t, StepsOfOrder(d, o, stamp, o.side), Joined(d, TakerOf(d, At(o, stamp))).Queue(o.side))
  {
    var a := At(o, stamp);
    var x := TakerOf(d, a);
    DeskLater(d, n, stamp);
    TakerEsSound(d, a, stamp);
    MatchKeepsTerms(Deterministic, a, d.Queue(a.side.Opposite()), MAX_ITERATIONS);
    if Rests(x) {
      SoundEnters(d, x, o.side, stamp);
      EnterPictures(o.side.Buy?, t.half, x);
      Single(o.side.Buy?, t, B.Enter(x));
      assert [B.Enter(x)][1..] == [];
    }
  }

  lemma SoundEnters(d: Desk, x: Ord, side: Side, stamp: nat)
    requires DeskSound(d, stamp) && Sound(x, side, stamp, SequenceToTimestamp(stamp))
    requires x.timestamp == SequenceToTimestamp(stamp)
    ensures x.price > 0 && x.quantity > 0 && x.remaining > 0 && NoLater(d.Queue(side), x)
  {
    var q := d.Queue(side);
    forall i | 0 <= i < |q| ensures q[i].timestamp <= x.timestamp {
      assert Sound(q[i], side, stamp, SequenceToTimestamp(stamp));
    }
  }

  lemma OrderBrings(emit: bool, d: Desk, o: Ord, n: nat, stamp: nat, side: Side, t: B.Picture)
    requires DeskSound(d, n) && n <= stamp && Fresh(o) && Admissible(o) && !HasId(d.Queue(o.side), o.id)
    requires Pictures(t, d.Queue(side))
    ensures Brings(side, t, StepsOfOrder(d, o, stamp, side), Handled(emit, d, o, stamp).Queue(side))
  {
    var a := At(o, stamp);
    MatchKeepsTerms(Deterministic, a, d.Queue(a.side.Opposite()), MAX_ITERATIONS);
    if side == o.side {
      EntryBrings(d, o, n, stamp, t);
    } else {
      TradesBring(d, o, n, stamp, side, t);
    }
  }

  lemma OrderEntries(d: Desk, o: Ord, stamp: nat, side: Side)
    ensures Entries(StepsOfOrder(d, o, stamp, side)) <= 1
  {
    var a := At(o, stamp);
    FillNobody(DeskMatch(d, a).fills, |DeskMatch(d, a).gone|);
    NobodyCounts(FillSteps(DeskMatch(d, a).fills, |DeskMatch(d, a).gone|));
    assert Rests(TakerOf(d, a)) ==> EntrySteps(TakerOf(d, a))[1..] == [];
  }

  // ---- Sessions -----------------------------------------------------------------------------

  lemma BringsMore(side: Side, t: B.Picture, a: seq<B.Step>, p: seq<Ord>, b: seq<B.Step>, q: seq<Ord>)
    requires B.Sized(t) && Brings(side, t, a, p) && Brings(side, B.After(side.Buy?, t, a), b, q)
    ensures Brings(side, t, a + b, q)
  {
    B.AfterConcat(side.Buy?, t, a, b);
    FrontOnlyConcat(side.Buy?, t, a, b);
    B.InTimeConcat(side.Buy?, t, a, b);
  }

  lemma NothingBrings(side: Side, t: B.Picture, q: seq<Ord>)
    requires Pictures(t, q)
    ensures Brings(side, t, [], q)
  {
  }

  /** Nobody with the id of a new order rests. */
  lemma NewHere(rs: seq<Request>, o: Ord, side: Side)
    requires NewRequests(rs + [Submit(o)]) && DistinctRequests(rs + [Submit(o)])
    ensures !HasId(SessionRun(rs).desk.Queue(side), o.id)
  {
    NotSubmitted(rs, o);
    AllButLast(rs, Submit(o));
    RunTraceable(rs);
    RunDistinct(rs);
    HeldPlaced(SessionRun(rs), side, o.id);
  }

  lemma NotSubmitted(rs: seq<Request>, o: Ord)
    requires DistinctRequests(rs + [Submit(o)])
    ensures !Submitted(rs, o.id)
  {
    var all := rs + [Submit(o)];
    forall i | 0 <= i < |rs| && rs[i].Submit? ensures rs[i].order.id != o.id {
      assert all[i] == rs[i] && all[|rs|] == Submit(o);
    }
  }

  lemma AllButLast(rs: seq<Request>, r: Request)
    requires NewRequests(rs + [r]) && DistinctRequests(rs + [r])
    ensures NewRequests(rs) && DistinctRequests(rs) && (r.Submit? ==> Fresh(r.order))
  {
    var all := rs + [r];
    assert all[|rs|] == r && forall i :: 0 <= i < |rs| ==> all[i] == rs[i];
  }

  lemma SubmitBrings(s: Session, o: Ord, side: Side, t: B.Picture)
    requires Latest(s.log) == |s.log| && DeskSound(s.desk, |s.log|) && Fresh(o) && Admissible(o)
    requires !HasId(s.desk.Queue(o.side), o.id) && Pictures(t, s.desk.Queue(side))
    ensures Brings(side, t, StepsOfRequest(s, Submit(o), side), ProcessEs(s, o).desk.Queue(side))
    ensures Entries(StepsOfRequest(s, Submit(o), side)) <= 1
  {
    OrderBrings(true, s.desk, o, |s.log|, |s.log| + 1, side, t);
    OrderEntries(s.desk, o, |s.log| + 1, side);
  }

  lemma RequestBrings(rs: seq<Request>, r: Request, side: Side, t: B.Picture)
    requires NewRequests(rs + [r]) && DistinctRequests(rs + [r]) && Pictures(t, SessionRun(rs).desk.Queue(side))
    ensures var s := SessionRun(rs);
      Brings(side, t, StepsOfRequest(s, r, side), SessionStep(s, r).desk.Queue(side))
    ensures Entries(StepsOfRequest(SessionRun(rs), r, side)) <= 1
  {
    var s := SessionRun(rs);
    if r.Submit? && Admissible(r.order) {
      AllButLast(rs, r);
      SessionSound(rs);
      NewHere(rs, r.order, r.order.side);
      SubmitBrings(s, r.order, side, t);
    } else {
      NothingBrings(side, t, s.desk.Queue(side));
    }
  }

  lemma {:induction false} SessionBrings(rs: seq<Request>, side: Side)
    requires NewRequests(rs) && DistinctRequests(rs)
    ensures Brings(side, B.START, StepsOfSession(rs, side), SessionRun(rs).desk.Queue(side))
    ensures Entries(StepsOfSession(rs, side)) <= |rs|
  {
    if rs != [] {
      var n := |rs| - 1;
      SessionBrings(rs[..n], side);
      OneMoreBrings(rs[..n], rs[n], side, StepsOfSession(rs[..n], side), rs);
    } else {
      NothingBrings(side, B.START, []);
    }
  }

  lemma OneMoreBrings(pre: seq<Request>, r: Request, side: Side, a: seq<B.Step>, all: seq<Request>)
    requires all == pre + [r] && NewRequests(all) && DistinctRequests(all)
    requires Brings(side, B.START, a, SessionRun(pre).desk.Queue(side))
    ensures var b := StepsOfRequest(SessionRun(pre), r, side);
      && Brings(side, B.START, a + b, SessionStep(SessionRun(pre), r).desk.Queue(side))
      && Entries(a + b) <= Entries(a) + 1
  {
    var b := StepsOfRequest(SessionRun(pre), r, side);
    RequestBrings(pre, r, side, B.After(side.Buy?, B.START, a));
    BringsMore(side, B.START, a, SessionRun(pre).desk.Queue(side), b, SessionStep(SessionRun(pre), r).desk.Queue(side));
    EntriesConcat(a, b);
  }

  /** Whatever the requests: below 2^500 of them the tree of each side goes through with the steps of the session. */
  lemma SessionStands(rs: seq<Request>, side: Side)
    requires NewRequests(rs) && DistinctRequests(rs) && |rs| + 1 < RedBlack.Pow2(500)
    ensures Brings(side, B.START, StepsOfSession(rs, side), SessionRun(rs).desk.Queue(side))
    ensures Upright(B.After(side.Buy?, B.START, StepsOfSession(rs, side)))
  {
    SessionBrings(rs, side);
    StartUpright();
    FrontOnlyStands(side.Buy?, B.START, StepsOfSession(rs, side));
  }

  /** The tree's walk is the queue, and each price's list the walk restricted to the price. */
  ghost predicate Holds(book: OrderBookSide, q: seq<Ord>, side: Side)
    reads book, book.nodes
  {
    book.Valid() && book.isBuy == side.Buy? && book.view == q && B.Follows(book)
  }

  method SideOfSession(rs: seq<Request>, side: Side) returns (book: OrderBookSide)
    requires NewRequests(rs) && DistinctRequests(rs) && |rs| + 1 < RedBlack.Pow2(500)
    ensures fresh(book) && Holds(book, SessionRun(rs).desk.Queue(side), side)
  {
    SessionStands(rs, side);
    var clean;
    book, clean := B.RunSide(side.Buy?, StepsOfSession(rs, side));
  }

  /** Two trees that take the steps of a session get through, and hold its books. */
  method TreesOfSession(rs: seq<Request>) returns (bids: OrderBookSide, asks: OrderBookSide)
    requires NewRequests(rs) && DistinctRequests(rs) && |rs| + 1 < RedBlack.Pow2(500)
    ensures Holds(bids, SessionRun(rs).desk.bids, Buy) && Holds(asks, SessionRun(rs).desk.asks, Sell)
  {
    bids := SideOfSession(rs, Buy);
    asks := SideOfSession(rs, Sell);
  }
}
