/** What every run keeps about the book: priority order, sound resting orders, no crossed prices. */
module MarketBook {
  import opened Orders
  import opened Priority
  import opened PriceLevels
  import opened Matching
  import opened Market

  ghost predicate NeverBackwards(w: World) {
    forall i: nat, j: nat :: i <= j ==> w.clock(i) <= w.clock(j)
  }

  /** A resting order: a live LIMIT order of its side whose quantities add up. */
  ghost predicate Sound(o: Ord, side: Side, sequence: nat, now: int) {
    && o.side == side && o.typ.Limit? && o.price > 0
    && o.remaining > 0 && o.filled >= 0 && o.filled + o.remaining == o.quantity
    && o.Active() && o.sequence <= sequence && o.timestamp <= now
  }

  ghost predicate QueueSound(q: seq<Ord>, side: Side, sequence: nat, now: int) {
    && Sorted(side.Buy?, OrdKeys(q))
    && forall i :: 0 <= i < |q| ==> Sound(q[i], side, sequence, now)
  }

  ghost predicate BookSound(w: World, s: State) {
    && QueueSound(s.bids.queue, Buy, s.sequence, w.clock(s.tick))
    && QueueSound(s.asks.queue, Sell, s.sequence, w.clock(s.tick))
  }

  /** Every bid is below every ask. */
  ghost predicate Uncrossed(s: State) {
    forall i, j :: 0 <= i < |s.bids.queue| && 0 <= j < |s.asks.queue| ==> s.bids.queue[i].price < s.asks.queue[j].price
  }

  /** What a caller hands in: a new order, nothing of it traded yet. */
  ghost predicate Fresh(o: Ord) {
    o.filled == 0 && o.remaining == o.quantity && o.status.Pending?
  }

  // ---- Queues -----------------------------------------------------------------------------

  lemma QueueLater(q: seq<Ord>, side: Side, n: nat, n': nat, now: int, now': int)
    requires QueueSound(q, side, n, now) && n <= n' && now <= now'
    ensures QueueSound(q, side, n', now')
  {
  }

  lemma KeysOfWithout(q: seq<Ord>, i: nat)
    requires i < |q|
    ensures OrdKeys(Without(q, i)) == Without(OrdKeys(q), i)
  {
  }

  lemma QueueWithout(q: seq<Ord>, i: nat, side: Side, n: nat, now: int)
    requires QueueSound(q, side, n, now) && i < |q|
    ensures QueueSound(Without(q, i), side, n, now)
  {
    var keys := OrdKeys(q);
    KeysOfWithout(q, i);
    forall a, b | 0 <= a < b < |keys| - 1 ensures !Ahead(side.Buy?, Without(keys, i)[b], Without(keys, i)[a]) {
      assert !Ahead(side.Buy?, keys[if b < i then b else b + 1], keys[if a < i then a else a + 1]);
    }
  }

  lemma KeysOfInsert(q: seq<Ord>, i: nat, o: Ord)
    requires i <= |q|
    ensures OrdKeys(InsertAt(q, i, o)) == InsertAt(OrdKeys(q), i, Key(o.price, o.timestamp))
  {
  }

  lemma QueueInsert(q: seq<Ord>, o: Ord, side: Side, n: nat, now: int)
    requires QueueSound(q, side, n, now) && Sound(o, side, n, now)
    ensures QueueSound(WithOrder(side.Buy?, Half(q, map[], map[]), o).queue, side, n, now)
  {
    var k := Key(o.price, o.timestamp);
    KeysOfInsert(q, Position(side.Buy?, OrdKeys(q), k), o);
    InsertKeepsSorted(side.Buy?, OrdKeys(q), k);
  }

  /** The same order at two moments, apart from what has been traded of it. */
  ghost predicate SameOrder(a: Ord, b: Ord) {
    a.id == b.id && a.user == b.user && a.side == b.side && a.price == b.price && a.timestamp == b.timestamp
  }

  /** `rest` are the orders of `q` behind the first `g`. */
  ghost predicate Behind(q: seq<Ord>, g: nat, rest: seq<Ord>) {
    g + |rest| == |q| && forall i :: 0 <= i < |rest| ==> SameOrder(rest[i], q[g + i])
  }

  /** What the loop leaves of a sound queue is its tail, and sound. */
  lemma {:induction false} QueueMatched(rule: Rule, taker: Ord, q: seq<Ord>, fuel: nat, side: Side, n: nat, now: int)
    requires !rule.Simd? && QueueSound(q, side, n, now) && taker.remaining >= 0
    ensures QueueSound(Match(rule, taker, q, fuel).book, side, n, now)
    ensures Behind(q, |Match(rule, taker, q, fuel).gone|, Match(rule, taker, q, fuel).book)
    decreases fuel
  {
    if !Stops(rule, taker, q, fuel) {
      var once := TradeOnce(rule, taker, q);
      TradeSound(rule, taker, q, side, n, now);
      if !OneShot(rule, taker) {
        QueueMatched(rule, once.taker, once.book, fuel - 1, side, n, now);
        var rest := Match(rule, once.taker, once.book, fuel - 1);
        BehindStep(q, once.book, |once.gone|, |rest.gone|, rest.book);
      }
    }
  }

  lemma BehindStep(q: seq<Ord>, b: seq<Ord>, g: nat, h: nat, c: seq<Ord>)
    requires Behind(q, g, b) && Behind(b, h, c)
    ensures Behind(q, g + h, c)
  {
    forall i | 0 <= i < |c| ensures SameOrder(c[i], q[g + h + i]) {
      assert SameOrder(c[i], b[h + i]) && SameOrder(b[h + i], q[g + (h + i)]);
    }
  }

  lemma TradeSound(rule: Rule, taker: Ord, q: seq<Ord>, side: Side, n: nat, now: int)
    requires !rule.Simd? && QueueSound(q, side, n, now) && taker.remaining > 0 && q != []
    ensures var once := TradeOnce(rule, taker, q);
      && QueueSound(once.book, side, n, now) && once.taker.remaining >= 0
      && Behind(q, |once.gone|, once.book)
  {
    var once := TradeOnce(rule, taker, q);
    var g := |once.gone|;
    assert Sound(q[0], side, n, now);
    forall i | 0 <= i < |once.book|
      ensures Sound(once.book[i], side, n, now) && SameOrder(once.book[i], q[g + i])
    {
      assert Sound(q[g + i], side, n, now);
    }
    SortedSuffix(side.Buy?, OrdKeys(q), OrdKeys(once.book), g);
  }

  lemma SortedSuffix(buy: bool, s: seq<Key>, t: seq<Key>, g: nat)
    requires Sorted(buy, s) && |t| == |s| - g && forall i :: 0 <= i < |t| ==> t[i] == s[g + i]
    ensures Sorted(buy, t)
  {
    forall i, j | 0 <= i < j < |t| ensures !Ahead(buy, t[j], t[i]) {
      assert !Ahead(buy, s[g + j], s[g + i]);
    }
  }

  // ---- One order --------------------------------------------------------------------------

  lemma {:induction false} VolumePositive(f: seq<Fill>)
    requires forall i :: 0 <= i < |f| ==> f[i].quantity > 0
    ensures Volume(f) >= 0 && (Volume(f) == 0 <==> f == [])
  {
    if f != [] { VolumePositive(f[1..]); }
  }

  /** Every fill trades something. */
  lemma FillsPositive(rule: Rule, taker: Ord, q: seq<Ord>, fuel: nat)
    requires Live(q) && taker.remaining >= 0
    ensures var out := Match(rule, taker, q, fuel);
      && (forall i :: 0 <= i < |out.fills| ==> out.fills[i].quantity > 0)
      && Volume(out.fills) >= 0 && (Volume(out.fills) == 0 <==> out.fills == [])
  {
    MatchIsGreedy(rule, taker, q, fuel);
    VolumePositive(Match(rule, taker, q, fuel).fills);
  }

  /** The loop either leaves the taker's status alone or cancels it. */
  lemma {:induction false} MatchKeepsStatus(rule: Rule, taker: Ord, book: seq<Ord>, fuel: nat)
    requires !rule.Simd? && !OneShot(rule, taker)
    ensures Match(rule, taker, book, fuel).taker.status == taker.status
    decreases fuel
  {
    if !Stops(rule, taker, book, fuel) {
      var once := TradeOnce(rule, taker, book);
      MatchKeepsStatus(rule, once.taker, once.book, fuel - 1);
    }
  }

  /** An IOC or FOK order trades at most once, and the CANCELLED status the loop gives it when something is
      left is always overwritten: it leaves filled, partially filled, or untouched. */
  lemma OneShotStatus(rule: Rule, taker: Ord, q: seq<Ord>, fuel: nat)
    requires OneShot(rule, taker) && Live(q) && taker.remaining > 0 && taker.filled == 0 && taker.status.Pending?
    ensures var out := Match(rule, taker, q, fuel); var left := Settled(out.taker);
      && |out.fills| <= 1
      && left.status == if out.fills == [] then Pending else if left.remaining == 0 then Filled else PartialFilled
  {
    FillsPositive(rule, taker, q, fuel);
    MatchIsGreedy(rule, taker, q, fuel);
  }

  /** A fresh order that leaves the loop wanting to rest is sound, with the newest sequence number and time. */
  lemma TakerSound(w: World, s: State, o: Ord)
    requires BookSound(w, s) && Acceptable(w, o) && Fresh(o) && Rests(TakerAfter(w, s, o))
    ensures Sound(TakerAfter(w, s, o), o.side, s.sequence + 1, w.clock(s.tick))
  {
    var q, a := s.Side(o.side.Opposite()).queue, Arrived(w, s, o);
    TakerTotals(a, q, MAX_ITERATIONS);
    MatchKeepsTerms(Classic, a, q, MAX_ITERATIONS);
  }

  lemma TakerTotals(taker: Ord, q: seq<Ord>, fuel: nat)
    requires Live(q) && taker.remaining >= 0 && taker.filled >= 0
    ensures var t := Match(Classic, taker, q, fuel).taker;
      t.filled >= taker.filled && t.remaining >= 0 && t.filled + t.remaining == taker.filled + taker.remaining
  {
    FillsPositive(Classic, taker, q, fuel);
    MatchIsGreedy(Classic, taker, q, fuel);
  }

  lemma MatchedSound(w: World, s: State, o: Ord)
    requires NeverBackwards(w) && BookSound(w, s) && Acceptable(w, o) && Fresh(o)
    ensures BookSound(w, Matched(w, s, o))
  {
    var side, s' := o.side.Opposite(), Matched(w, s, o);
    var n, now := s.sequence, w.clock(s.tick);
    QueueMatched(Classic, Arrived(w, s, o), s.Side(side).queue, MAX_ITERATIONS, side, n, now);
    assert s.tick <= s'.tick;
    QueueLater(s'.bids.queue, Buy, n, s'.sequence, now, w.clock(s'.tick));
    QueueLater(s'.asks.queue, Sell, n, s'.sequence, now, w.clock(s'.tick));
  }

  lemma ProcessKeepsSound(w: World, s: State, o: Ord)
    requires NeverBackwards(w) && BookSound(w, s) && Fresh(o)
    ensures BookSound(w, Process(w, s, o))
  {
    if Acceptable(w, o) {
      var s', o' := Matched(w, s, o), TakerAfter(w, s, o);
      MatchedSound(w, s, o);
      if Rests(o') {
        TakerSound(w, s, o);
        assert s.tick <= s'.tick && s.sequence + 1 <= s'.sequence;
        SoundTaker(w, s, o);
        QueueInsert(s'.Side(o.side).queue, o', o.side, s'.sequence, w.clock(s'.tick));
      }
    }
  }

  lemma SoundTaker(w: World, s: State, o: Ord)
    requires NeverBackwards(w) && BookSound(w, s) && Acceptable(w, o) && Fresh(o) && Rests(TakerAfter(w, s, o))
    ensures var s' := Matched(w, s, o); Sound(TakerAfter(w, s, o), o.side, s'.sequence, w.clock(s'.tick))
    ensures TakerAfter(w, s, o).side == o.side && TakerAfter(w, s, o).id == o.id && TakerAfter(w, s, o).price == o.price
    ensures o.typ.Limit?
  {
    TakerSound(w, s, o);
    assert s.tick <= Matched(w, s, o).tick;
    MatchKeepsTerms(Classic, Arrived(w, s, o), s.Side(o.side.Opposite()).queue, MAX_ITERATIONS);
  }

  // ---- Uncrossed --------------------------------------------------------------------------

  /** More orders are in reach of the arriving one than the loop may trade with, and it wants more than as many of
      them as the loop may trade with have to give. */
  ghost predicate CutShort(w: World, s: State, o: Ord) {
    var q := s.Side(o.side.Opposite()).queue;
    Reach(Classic, Arrived(w, s, o), q) > MAX_ITERATIONS && Remaining(q[..MAX_ITERATIONS]) < o.remaining
  }

  lemma BookLive(w: World, s: State, side: Side)
    requires BookSound(w, s)
    ensures Live(s.Side(side).queue)
  {
    var q := s.Side(side).queue;
    assert QueueSound(q, side, s.sequence, w.clock(s.tick));
    forall i | 0 <= i < |q| ensures q[i].remaining > 0 && !q[i].status.Filled? {
      assert Sound(q[i], side, s.sequence, w.clock(s.tick));
    }
  }

  /** That is exactly when the loop stops with a match waiting. */
  lemma CutShortExactly(w: World, s: State, o: Ord)
    requires BookSound(w, s) && o.remaining >= 0 && !OneShot(Classic, o)
    ensures CutShort(w, s, o) <==> Waiting(Classic, MatchOf(w, s, o))
  {
    BookLive(w, s, o.side.Opposite());
    WaitingExactly(Classic, Arrived(w, s, o), s.Side(o.side.Opposite()).queue, MAX_ITERATIONS);
  }

  /** A LIMIT order that is cut short rests. */
  lemma CutShortRests(w: World, s: State, o: Ord)
    requires BookSound(w, s) && Acceptable(w, o) && Fresh(o) && o.typ.Limit? && CutShort(w, s, o)
    ensures Rests(TakerAfter(w, s, o))
  {
    var a, q := Arrived(w, s, o), s.Side(o.side.Opposite()).queue;
    CutShortExactly(w, s, o);
    MatchKeepsStatus(Classic, a, q, MAX_ITERATIONS);
    MatchKeepsTerms(Classic, a, q, MAX_ITERATIONS);
  }

  /** The front of a sound queue has the best price. */
  lemma FrontIsBest(q: seq<Ord>, side: Side, n: nat, now: int)
    requires QueueSound(q, side, n, now)
    ensures forall i :: 0 <= i < |q| ==> !PriceBetter(side.Buy?, q[i].price, q[0].price)
  {
    forall i | 0 <= i < |q| ensures !PriceBetter(side.Buy?, q[i].price, q[0].price) {
      assert i > 0 ==> !Ahead(side.Buy?, OrdKeys(q)[i], OrdKeys(q)[0]);
    }
  }

  /** Whether `price` on `side` is clear of the whole opposite queue. */
  ghost predicate Clear(side: Side, price: int, opposite: seq<Ord>) {
    forall i :: 0 <= i < |opposite| ==> if side.Buy? then price < opposite[i].price else opposite[i].price < price
  }

  lemma RestingClear(w: World, s: State, o: Ord)
    requires NeverBackwards(w) && BookSound(w, s) && Acceptable(w, o) && Fresh(o) && Rests(TakerAfter(w, s, o))
    ensures Clear(o.side, o.price, MatchOf(w, s, o).book) <==> !CutShort(w, s, o)
  {
    var side, out := o.side.Opposite(), MatchOf(w, s, o);
    var q := s.Side(side).queue;
    SoundTaker(w, s, o);
    CutShortExactly(w, s, o);
    MatchKeepsTerms(Classic, Arrived(w, s, o), q, MAX_ITERATIONS);
    QueueMatched(Classic, Arrived(w, s, o), q, MAX_ITERATIONS, side, s.sequence, w.clock(s.tick));
    FrontIsBest(out.book, side, s.sequence, w.clock(s.tick));
    if out.book != [] {
      assert Sound(out.book[0], side, s.sequence, w.clock(s.tick));
    }
  }

  lemma MatchedUncrossed(w: World, s: State, o: Ord)
    requires BookSound(w, s) && Uncrossed(s) && Fresh(o) && Acceptable(w, o)
    ensures Uncrossed(Matched(w, s, o))
  {
    var side := o.side.Opposite();
    QueueMatched(Classic, Arrived(w, s, o), s.Side(side).queue, MAX_ITERATIONS, side, s.sequence, w.clock(s.tick));
  }

  lemma InsertUncrossed(s: State, o: Ord)
    requires Uncrossed(s)
    ensures Uncrossed(s.WithSide(o.side, WithOrder(o.side.Buy?, s.Side(o.side), o)))
        <==> Clear(o.side, o.price, s.Side(o.side.Opposite()).queue)
  {
    var h := s.Side(o.side);
    var n := Position(o.side.Buy?, OrdKeys(h.queue), Key(o.price, o.timestamp));
    var s' := s.WithSide(o.side, WithOrder(o.side.Buy?, h, o));
    var q' := s'.Side(o.side).queue;
    assert q'[n] == o;
    if Clear(o.side, o.price, s.Side(o.side.Opposite()).queue) {
      forall i, j | 0 <= i < |s'.bids.queue| && 0 <= j < |s'.asks.queue|
        ensures s'.bids.queue[i].price < s'.asks.queue[j].price
      {
        var k := if o.side.Buy? then i else j;
        if k != n { assert q'[k] == h.queue[if k < n then k else k - 1]; }
      }
    } else {
      var i :| 0 <= i < |s.Side(o.side.Opposite()).queue|
        && !(if o.side.Buy? then o.price < s.asks.queue[i].price else s.bids.queue[i].price < o.price);
      assert s'.Side(o.side.Opposite()).queue[i] == s.Side(o.side.Opposite()).queue[i];
    }
  }

  /** An order crosses the book exactly when it is an acceptable LIMIT order that is cut short. */
  lemma ProcessUncrossed(w: World, s: State, o: Ord)
    requires NeverBackwards(w) && BookSound(w, s) && Uncrossed(s) && Fresh(o) && o.id !in s.owned
    ensures Uncrossed(Process(w, s, o)) <==> !(Acceptable(w, o) && o.typ.Limit? && CutShort(w, s, o))
  {
    if Acceptable(w, o) {
      var s', o' := Matched(w, s, o), TakerAfter(w, s, o);
      MatchedUncrossed(w, s, o);
      if o.typ.Limit? && CutShort(w, s, o) { CutShortRests(w, s, o); }
      if Rests(o') {
        SoundTaker(w, s, o);
        RestingClear(w, s, o);
        InsertUncrossed(s', o');
        assert Process(w, s, o).bids.queue
          == s'.WithSide(o.side, WithOrder(o.side.Buy?, s'.Side(o.side), o')).bids.queue;
        assert Process(w, s, o).asks.queue
          == s'.WithSide(o.side, WithOrder(o.side.Buy?, s'.Side(o.side), o')).asks.queue;
      }
    }
  }

  // ---- Cancelling -------------------------------------------------------------------------

  lemma RemovedKeeps(w: World, s: State, side: Side, i: nat)
    requires i < |s.Side(side).queue| && BookSound(w, s)
    ensures BookSound(w, Removed(s, side, i))
    ensures Uncrossed(s) ==> Uncrossed(Removed(s, side, i))
  {
    QueueWithout(s.Side(side).queue, i, side, s.sequence, w.clock(s.tick));
  }

  lemma CancelKeeps(w: World, s: State, id: nat, user: nat)
    requires BookSound(w, s)
    ensures BookSound(w, Cancel(s, id, user))
    ensures Uncrossed(s) ==> Uncrossed(Cancel(s, id, user))
  {
    if id in s.owned {
      if HasId(s.bids.queue, id) {
        RemovedKeeps(w, s, Buy, IndexOf(s.bids.queue, id));
      } else if HasId(s.asks.queue, id) {
        RemovedKeeps(w, s, Sell, IndexOf(s.asks.queue, id));
      }
    }
  }

  lemma {:induction false} CancelEachKeeps(w: World, s: State, ids: seq<nat>, user: nat)
    requires BookSound(w, s)
    ensures BookSound(w, CancelEach(s, ids, user))
    ensures Uncrossed(s) ==> Uncrossed(CancelEach(s, ids, user))
  {
    if ids != [] {
      CancelEachKeeps(w, s, ids[..|ids| - 1], user);
      CancelKeeps(w, CancelEach(s, ids[..|ids| - 1], user), ids[|ids| - 1], user);
    }
  }
}
