/** What a level's total means once orders have traded: the engine lowers remaining quantities
    without telling the level, so the total is the resting quantity plus what was traded there
    since the level was created. */
module MarketLevels {
  import opened Orders
  import opened Priority
  import opened PriceLevels
  import opened Matching
  import opened Market
  import opened MarketBook

  ghost function RemainingAt(q: seq<Ord>, p: int): int {
    if q == [] then 0 else (if q[0].price == p then q[0].remaining else 0) + RemainingAt(q[1..], p)
  }

  ghost function FilledAt(f: seq<Fill>, p: int): int {
    if f == [] then 0
    else FilledAt(f[..|f| - 1], p) + if f[|f| - 1].maker.price == p then f[|f| - 1].quantity else 0
  }

  /** The level of `p` shows its resting quantity plus the volume traded there since it was created. */
  ghost predicate TotalAt(h: Half, p: int)
    requires p in h.totals && p in h.since
  {
    h.totals[p] == RemainingAt(h.queue, p) + h.since[p] && h.totals[p] > 0 && h.since[p] >= 0
  }

  /** Every resting order has a level, and every level obeys the law. */
  ghost predicate LevelLaw(h: Half) {
    && (forall p :: p in h.totals <==> p in h.since)
    && (forall p :: p in h.totals ==> TotalAt(h, p))
    && (forall i :: 0 <= i < |h.queue| ==> h.queue[i].price in h.totals)
  }

  ghost predicate Levels(s: State) { LevelLaw(s.bids) && LevelLaw(s.asks) }

  // ---- Sums -------------------------------------------------------------------------------

  lemma {:induction false} RemainingInsert(q: seq<Ord>, n: nat, o: Ord, p: int)
    requires n <= |q|
    ensures RemainingAt(InsertAt(q, n, o), p) == RemainingAt(q, p) + if o.price == p then o.remaining else 0
  {
    var r := InsertAt(q, n, o);
    if n == 0 {
      assert r[1..] == q;
    } else {
      assert r[1..] == InsertAt(q[1..], n - 1, o);
      RemainingInsert(q[1..], n - 1, o, p);
    }
  }

  lemma {:induction false} RemainingWithout(q: seq<Ord>, i: nat, p: int)
    requires i < |q|
    ensures RemainingAt(q, p) == RemainingAt(Without(q, i), p) + if q[i].price == p then q[i].remaining else 0
  {
    if i == 0 {
      assert Without(q, 0) == q[1..];
    } else {
      assert Without(q, i)[1..] == Without(q[1..], i - 1);
      RemainingWithout(q[1..], i - 1, p);
    }
  }

  /** With every order live, nothing remains at a price exactly when nobody is there. */
  lemma {:induction false} RemainingPositive(q: seq<Ord>, p: int)
    requires Live(q)
    ensures RemainingAt(q, p) >= 0
    ensures RemainingAt(q, p) == 0 <==> forall i :: 0 <= i < |q| ==> q[i].price != p
  {
    if q != [] {
      RemainingPositive(q[1..], p);
      assert forall i :: 1 <= i < |q| ==> q[i] == q[1..][i - 1];
      if forall i :: 0 <= i < |q[1..]| ==> q[1..][i].price != p {
      } else {
        var i :| 0 <= i < |q[1..]| && q[1..][i].price == p;
        assert q[i + 1].price == p;
      }
    }
  }

  lemma {:induction false} FilledAtConcat(a: seq<Fill>, b: seq<Fill>, p: int)
    ensures FilledAt(a + b, p) == FilledAt(a, p) + FilledAt(b, p)
  {
    if b == [] {
      assert a + b == a;
    } else {
      assert (a + b)[..|a + b| - 1] == a + b[..|b| - 1];
      FilledAtConcat(a, b[..|b| - 1], p);
    }
  }

  /** Matching takes from a price exactly what it trades there. */
  lemma {:induction false} RemainingMatched(rule: Rule, taker: Ord, q: seq<Ord>, fuel: nat, p: int)
    requires !rule.Simd? && Live(q)
    ensures var out := Match(rule, taker, q, fuel);
      RemainingAt(out.book, p) == RemainingAt(q, p) - FilledAt(out.fills, p)
    decreases fuel
  {
    if !Stops(rule, taker, q, fuel) {
      var once := TradeOnce(rule, taker, q);
      RemainingTraded(rule, taker, q, p);
      if !OneShot(rule, taker) {
        RemainingMatched(rule, once.taker, once.book, fuel - 1, p);
        FilledAtConcat(once.fills, Match(rule, once.taker, once.book, fuel - 1).fills, p);
      }
    }
  }

  lemma RemainingTraded(rule: Rule, taker: Ord, q: seq<Ord>, p: int)
    requires !rule.Simd? && Live(q) && q != [] && taker.remaining > 0
    ensures var once := TradeOnce(rule, taker, q);
      Live(once.book) && RemainingAt(once.book, p) == RemainingAt(q, p) - FilledAt(once.fills, p)
  {
    var once := TradeOnce(rule, taker, q);
    assert once.fills[..0] == [];
    if once.gone == [] { assert once.book[1..] == q[1..]; }
  }

  // ---- Maps -------------------------------------------------------------------------------

  /** Orders leaving with nothing remaining take nothing from any level. */
  lemma {:induction false} TakeNothing(t: map<int, int>, gone: seq<Ord>)
    requires forall i :: 0 <= i < |gone| ==> gone[i].remaining == 0 && gone[i].price in t
    requires forall p :: p in t ==> t[p] > 0
    ensures TakeAll(t, gone) == t
  {
    if gone != [] { TakeNothing(t, gone[..|gone| - 1]); }
  }

  lemma {:induction false} AddFillsExact(t: map<int, int>, f: seq<Fill>)
    requires forall i :: 0 <= i < |f| ==> f[i].maker.price in t
    ensures forall p :: p in AddFills(t, f) <==> p in t
    ensures forall p :: p in t ==> AddFills(t, f)[p] == t[p] + FilledAt(f, p)
  {
    if f != [] { AddFillsExact(t, f[..|f| - 1]); }
  }

  lemma {:induction false} FilledAtPositive(f: seq<Fill>, p: int)
    requires forall i :: 0 <= i < |f| ==> f[i].quantity > 0
    ensures FilledAt(f, p) >= 0
  {
    if f != [] { FilledAtPositive(f[..|f| - 1], p); }
  }

  // ---- Steps ------------------------------------------------------------------------------

  lemma InsertLaw(buy: bool, h: Half, o: Ord)
    requires LevelLaw(h) && Live(h.queue) && o.remaining > 0
    ensures LevelLaw(WithOrder(buy, h, o))
  {
    var n := Position(buy, OrdKeys(h.queue), Key(o.price, o.timestamp));
    JoinLaw(h, n, o);
  }

  lemma JoinLaw(h: Half, n: nat, o: Ord)
    requires LevelLaw(h) && Live(h.queue) && o.remaining > 0 && n <= |h.queue|
    ensures LevelLaw(Half(InsertAt(h.queue, n, o), AddTo(h.totals, o.price, o.remaining),
                          if o.price in h.totals then h.since else h.since[o.price := 0]))
  {
    var q' := InsertAt(h.queue, n, o);
    forall p ensures RemainingAt(q', p) == RemainingAt(h.queue, p) + if o.price == p then o.remaining else 0 {
      RemainingInsert(h.queue, n, o, p);
    }
    RemainingPositive(h.queue, o.price);
  }

  lemma WithoutLaw(h: Half, i: nat)
    requires LevelLaw(h) && Live(h.queue) && i < |h.queue|
    ensures LevelLaw(WithoutOrder(h, i))
  {
    var h', q' := WithoutOrder(h, i), Without(h.queue, i);
    forall p
      ensures RemainingAt(h.queue, p) == RemainingAt(q', p) + if h.queue[i].price == p then h.queue[i].remaining else 0
    {
      RemainingWithout(h.queue, i, p);
    }
    RemainingPositive(q', h.queue[i].price);
    assert forall p :: p in h'.totals ==> p in h.totals;
  }

  lemma MatchLaw(taker: Ord, h: Half, fuel: nat)
    requires LevelLaw(h) && Live(h.queue) && taker.remaining >= 0
    ensures LevelLaw(AfterMatch(h, Match(Classic, taker, h.queue, fuel)))
  {
    var out := Match(Classic, taker, h.queue, fuel);
    var h' := AfterMatch(h, out);
    MatchIsGreedy(Classic, taker, h.queue, fuel);
    FillsPositive(Classic, taker, h.queue, fuel);
    GreedyPrices(Classic, taker, h.queue, out);
    TakeNothing(h.totals, out.gone);
    AddFillsExact(h.since, out.fills);
    assert forall p :: p in h'.totals <==> p in h'.since;
    forall p | p in h'.totals ensures TotalAt(h', p) {
      RemainingMatched(Classic, taker, h.queue, fuel, p);
      FilledAtPositive(out.fills, p);
    }
  }

  lemma {:induction false} RemainingChanged(q: seq<Ord>, i: nat, o: Ord, p: int)
    requires i < |q| && o.price == q[i].price
    ensures RemainingAt(q[i := o], p) == RemainingAt(q, p) + if o.price == p then o.remaining - q[i].remaining else 0
  {
    if i == 0 {
      assert q[0 := o][1..] == q[1..];
    } else {
      assert q[i := o][1..] == q[1..][i - 1 := o];
      RemainingChanged(q[1..], i - 1, o, p);
    }
  }

  /** Nor does a trade with an order of the book break the law, nor a new quantity for one. */
  lemma TradeLaw(h: Half, i: nat, quantity: int)
    requires LevelLaw(h) && i < |h.queue| && quantity > 0
    ensures LevelLaw(WithTrade(h, i, quantity))
  {
    var h', o := WithTrade(h, i, quantity), Traded(h.queue[i], quantity);
    forall p | p in h'.totals ensures TotalAt(h', p) {
      assert TotalAt(h, p);
      RemainingChanged(h.queue, i, o, p);
    }
  }

  lemma QuantityLaw(h: Half, i: nat, quantity: int)
    requires LevelLaw(h) && Live(h.queue) && i < |h.queue| && quantity > 0
    ensures LevelLaw(WithQuantity(h, i, quantity))
  {
    var h', o := WithQuantity(h, i, quantity), h.queue[i].(remaining := quantity);
    RemainingWithout(h.queue, i, o.price);
    RemainingPositive(Without(h.queue, i), o.price);
    assert TotalAt(h, o.price);
    forall p | p in h'.totals ensures TotalAt(h', p) {
      assert TotalAt(h, p);
      RemainingChanged(h.queue, i, o, p);
    }
  }

  lemma GreedyPrices(rule: Rule, taker: Ord, q: seq<Ord>, out: Outcome)
    requires !rule.Simd? && Greedy(rule, taker, q, out)
    ensures forall i :: 0 <= i < |out.gone| ==> i < |q| && out.gone[i].remaining == 0 && out.gone[i].price == q[i].price
    ensures forall i :: 0 <= i < |out.fills| ==> i < |q| && out.fills[i].maker.price == q[i].price
    ensures forall i :: 0 <= i < |out.book| ==> |out.gone| + i < |q| && out.book[i].price == q[|out.gone| + i].price
  {
  }

  lemma ProcessKeepsLevels(w: World, s: State, o: Ord)
    requires NeverBackwards(w) && BookSound(w, s) && Levels(s) && Fresh(o) && o.id !in s.owned
    ensures Levels(Process(w, s, o))
  {
    if Acceptable(w, o) {
      var s', t := Matched(w, s, o), TakerAfter(w, s, o);
      MatchLaw(Arrived(w, s, o), s.Side(o.side.Opposite()), MAX_ITERATIONS);
      assert Levels(s');
      if Rests(t) {
        SoundTaker(w, s, o);
        MatchedSound(w, s, o);
        InsertLaw(o.side.Buy?, s'.Side(o.side), t);
      }
    }
  }

  lemma CancelKeepsLevels(w: World, s: State, id: nat, user: nat)
    requires BookSound(w, s) && Levels(s)
    ensures Levels(Cancel(s, id, user))
  {
    if HasId(s.bids.queue, id) {
      WithoutLaw(s.bids, IndexOf(s.bids.queue, id));
    } else if HasId(s.asks.queue, id) {
      WithoutLaw(s.asks, IndexOf(s.asks.queue, id));
    }
  }

  lemma {:induction false} CancelEachKeepsLevels(w: World, s: State, ids: seq<nat>, user: nat)
    requires BookSound(w, s) && Levels(s)
    ensures Levels(CancelEach(s, ids, user))
  {
    if ids != [] {
      var m := CancelEach(s, ids[..|ids| - 1], user);
      CancelEachKeepsLevels(w, s, ids[..|ids| - 1], user);
      CancelEachKeeps(w, s, ids[..|ids| - 1], user);
      CancelKeepsLevels(w, m, ids[|ids| - 1], user);
    }
  }

  /** A level outlives its last order exactly when something was traded there. */
  lemma EmptyLevelStays(h: Half, p: int)
    requires LevelLaw(h) && Live(h.queue)
    requires p in h.totals
    ensures (forall i :: 0 <= i < |h.queue| ==> h.queue[i].price != p) ==> h.since[p] > 0
    ensures h.totals[p] == RemainingAt(h.queue, p) <==> h.since[p] == 0
  {
    RemainingPositive(h.queue, p);
    assert TotalAt(h, p);
  }
}
