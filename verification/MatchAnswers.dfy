/** What a match gives a taker, told by prices, quantities and order types alone. */
module MatchAnswers {
  import opened Orders
  import opened Priority
  import opened Matching
  import opened Market
  import opened MarketBook
  import opened MarketDeterminism
  import opened EventRuns
  import opened EventLog

  /** The price is one a buyer, or a seller, with the limit accepts. */
  predicate Within(side: Side, limit: int, price: int) {
    if side.Buy? then price <= limit else price >= limit
  }

  /** What the orders at such prices have remaining, wherever they stand. */
  ghost function Offered(q: seq<Ord>, side: Side, limit: int): int {
    if q == [] then 0
    else (if Within(side, limit, q[0].price) then q[0].remaining else 0) + Offered(q[1..], side, limit)
  }

  lemma {:induction false} OfferedIsFront(q: seq<Ord>, side: Side, limit: int, m: nat)
    requires m <= |q| && forall i :: 0 <= i < |q| ==> (Within(side, limit, q[i].price) <==> i < m)
    ensures Offered(q, side, limit) == Remaining(q[..m])
  {
    if q != [] {
      var k := if m == 0 then 0 else m - 1;
      assert forall i :: 0 <= i < |q[1..]| ==> q[1..][i] == q[i + 1];
      OfferedIsFront(q[1..], side, limit, k);
      if m > 0 { assert q[..m][0] == q[0] && q[..m][1..] == q[1..][..k]; } else { assert q[..0] == q[1..][..0]; }
    }
  }

  /** The taker meets a sound queue of the other side, and the loop does not run into its limit. */
  ghost predicate Meets(rule: Rule, taker: Ord, q: seq<Ord>, n: nat, now: int, fuel: nat) {
    && QueueSound(q, taker.side.Opposite(), n, now) && taker.remaining >= 0
    && |Match(rule, taker, q, fuel).fills| < fuel
  }

  /** A taker that may trade repeatedly takes what it wants of the orders it can trade with. */
  lemma TakesByPrice(rule: Rule, taker: Ord, q: seq<Ord>, n: nat, now: int, fuel: nat)
    requires Meets(rule, taker, q, n, now, fuel) && !OneShot(rule, taker)
    requires rule.Classic? ==> !taker.typ.Market?
    ensures var offered := Offered(q, taker.side, taker.price);
      Volume(Match(rule, taker, q, fuel).fills) == if taker.remaining < offered then taker.remaining else offered
  {
    SoundResting(taker, q, taker.side.Opposite(), n, now);
    ReachIsEveryone(rule, taker, q);
    OfferedIsFront(q, taker.side, taker.price, Reach(rule, taker, q));
    MatchComplete(rule, taker, q, fuel);
  }

  /** The classic loop: a LIMIT order takes all it wants of what is offered within its price. */
  lemma ClassicLimitTakes(taker: Ord, q: seq<Ord>, n: nat, now: int, fuel: nat)
    requires Meets(Classic, taker, q, n, now, fuel) && taker.typ.Limit?
    ensures var offered := Offered(q, taker.side, taker.price);
      Volume(Match(Classic, taker, q, fuel).fills) == if taker.remaining < offered then taker.remaining else offered
  {
    TakesByPrice(Classic, taker, q, n, now, fuel);
  }

  /** A MARKET order takes all it wants of everything. */
  lemma ClassicMarketTakes(taker: Ord, q: seq<Ord>, n: nat, now: int, fuel: nat)
    requires Meets(Classic, taker, q, n, now, fuel) && taker.typ.Market?
    ensures Volume(Match(Classic, taker, q, fuel).fills)
         == if taker.remaining < Remaining(q) then taker.remaining else Remaining(q)
  {
    SoundResting(taker, q, taker.side.Opposite(), n, now);
    ReachIsEveryone(Classic, taker, q);
    ReachBounds(Classic, taker, q);
    assert q[..|q|] == q;
    MatchComplete(Classic, taker, q, fuel);
  }

  /** The event-sourced loop goes by the price of a MARKET order too. */
  lemma DeterministicTakes(taker: Ord, q: seq<Ord>, n: nat, now: int, fuel: nat)
    requires Meets(Deterministic, taker, q, n, now, fuel) && (taker.typ.Limit? || taker.typ.Market?)
    ensures var offered := Offered(q, taker.side, taker.price);
      Volume(Match(Deterministic, taker, q, fuel).fills) == if taker.remaining < offered then taker.remaining
        else offered
  {
    TakesByPrice(Deterministic, taker, q, n, now, fuel);
  }

  /** The third loop goes by the price of any order, and lets any trade repeatedly. */
  lemma SimdTakes(taker: Ord, q: seq<Ord>, n: nat, now: int, fuel: nat)
    requires Meets(Simd, taker, q, n, now, fuel)
    ensures var offered := Offered(q, taker.side, taker.price);
      Volume(Match(Simd, taker, q, fuel).fills) == if taker.remaining < offered then taker.remaining else offered
  {
    TakesByPrice(Simd, taker, q, n, now, fuel);
  }

  /** An IOC or FOK order trades with the front if the price allows, and with nobody else. */
  lemma OneShotTakes(rule: Rule, taker: Ord, q: seq<Ord>, n: nat, now: int, fuel: nat)
    requires rule.Classic? || rule.Deterministic?
    requires QueueSound(q, taker.side.Opposite(), n, now) && taker.remaining > 0 && fuel > 0
    requires taker.typ.IOC? || taker.typ.FOK?
    ensures Match(rule, taker, q, fuel).fills
         == if q != [] && Within(taker.side, taker.price, q[0].price) then
              [Fill(q[0], if taker.remaining < q[0].remaining then taker.remaining else q[0].remaining)]
            else []
  {
    SoundResting(taker, q, taker.side.Opposite(), n, now);
  }

  /** Nobody trades with an order of its own side in the classic loop, and the third stops at a price of zero. */
  lemma NeverMatches(taker: Ord, q: seq<Ord>, fuel: nat)
    requires q != []
    ensures q[0].side == taker.side ==> Match(Classic, taker, q, fuel).fills == []
    ensures q[0].price == 0 ==> Match(Simd, taker, q, fuel).fills == []
  {
  }

  // ---- Statuses -----------------------------------------------------------------------------

  /** The status of a new order after the loop, whatever its type. */
  predicate StatusTells(o: Ord, traded: bool) {
    o.status == if o.remaining == 0 then Filled else if traded then PartialFilled else Pending
  }

  lemma SettledTells(rule: Rule, taker: Ord, q: seq<Ord>, n: nat, now: int, fuel: nat)
    requires !rule.Simd? && QueueSound(q, taker.side.Opposite(), n, now)
    requires taker.remaining > 0 && taker.filled == 0 && taker.status.Pending?
    ensures var out := Match(rule, taker, q, fuel);
      StatusTells(Settled(out.taker), out.fills != []) && Settled(out.taker).remaining == out.taker.remaining
  {
    SoundResting(taker, q, taker.side.Opposite(), n, now);
    if taker.typ.IOC? || taker.typ.FOK? {
      OneShotStatus(rule, taker, q, fuel);
    } else {
      MatchKeepsStatus(rule, taker, q, fuel);
    }
    FillsPositive(rule, taker, q, fuel);
    MatchIsGreedy(rule, taker, q, fuel);
  }

  /** How the classic engine leaves an accepted order. */
  lemma TakerStatus(w: World, s: State, o: Ord)
    requires BookSound(w, s) && Fresh(o) && o.quantity > 0
    ensures StatusTells(TakerAfter(w, s, o), MatchOf(w, s, o).fills != [])
  {
    SettledTells(Classic, Arrived(w, s, o), s.Side(o.side.Opposite()).queue, s.sequence, w.clock(s.tick),
      MAX_ITERATIONS);
  }

  lemma {:induction false} SimdTakerStatus(taker: Ord, q: seq<Ord>, fuel: nat)
    requires Live(q) && taker.remaining >= 0
    ensures var out := Match(Simd, taker, q, fuel);
      if out.fills == [] then out.taker.status == taker.status
      else out.taker.status == if out.taker.remaining == 0 then Filled else PartialFilled
    decreases fuel
  {
    if !Stops(Simd, taker, q, fuel) {
      var once := TradeOnce(Simd, taker, q);
      OneTradeGreedy(Simd, taker, q);
      SimdTakerStatus(once.taker, once.book, fuel - 1);
    }
  }

  /** The third loop stamps both sides as it trades: whoever has nothing left is filled, and leaves if
      it rested; whoever traded and has something left is partially filled. */
  lemma SimdStatuses(taker: Ord, q: seq<Ord>, fuel: nat)
    requires Live(q) && taker.remaining >= 0
    ensures var out := Match(Simd, taker, q, fuel);
      && (forall i :: 0 <= i < |out.gone| ==> out.gone[i].remaining == 0 && out.gone[i].status.Filled?)
      && (|out.fills| > |out.gone| ==> out.book != [] && out.book[0].remaining > 0 && out.book[0].status.PartialFilled?)
      && (out.fills != [] ==> out.taker.status == if out.taker.remaining == 0 then Filled else PartialFilled)
      && (out.fills == [] ==> out.taker.status == taker.status)
  {
    SimdTakerStatus(taker, q, fuel);
    MatchIsGreedy(Simd, taker, q, fuel);
  }

  /** How the event-sourced engine does. */
  lemma TakerEsStatus(d: Desk, a: Ord, n: nat)
    requires DeskSound(d, n) && Fresh(a) && a.quantity > 0
    ensures StatusTells(TakerOf(d, a), DeskMatch(d, a).fills != [])
  {
    SettledTells(Deterministic, a, d.Queue(a.side.Opposite()), n, SequenceToTimestamp(n), MAX_ITERATIONS);
  }
}
