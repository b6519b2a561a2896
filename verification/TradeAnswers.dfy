/** What the trades of the event-sourced and of the third engine record. */
module TradeAnswers {
  import opened Orders
  import opened Matching
  import opened Market
  import opened MarketBook
  import opened MarketDeterminism
  import opened EventRuns
  import opened EventLog
  import opened SimdEngine

  /** The event-sourced engine: with emission on, every trade is numbered two past the one before. */
  lemma TradesEsTell(a: Ord, q: seq<Ord>, n: nat, i: nat)
    requires QueueSound(q, a.side.Opposite(), n, SequenceToTimestamp(n)) && a.remaining >= 0
    requires i < |Match(Deterministic, a, q, MAX_ITERATIONS).fills|
    ensures var f := Match(Deterministic, a, q, MAX_ITERATIONS).fills; var number := a.sequence + 1 + 2 * i;
      i < |q| && 0 < f[i].quantity <= q[i].remaining
      && Records(DeskTrades(true, a, f)[i], a, q[i], f[i].quantity, a.instrument, number, SequenceToTimestamp(number))
  {
    SoundResting(a, q, a.side.Opposite(), n, SequenceToTimestamp(n));
    FillFromFront(Deterministic, a, q, MAX_ITERATIONS, i);
  }

  /** The third engine: two clock readings for each trade, the first for its time and the second for its number. */
  lemma TradesSimdTell(clock: nat -> nat, tick: nat, a: Ord, q: seq<Ord>, n: nat, now: int, i: nat)
    requires QueueSound(q, a.side.Opposite(), n, now) && a.remaining >= 0
    requires i < |Match(Simd, a, q, MAX_ITERATIONS).fills|
    ensures var f := Match(Simd, a, q, MAX_ITERATIONS).fills;
      i < |q| && 0 < f[i].quantity <= q[i].remaining
      && Records(ClockTrades(clock, tick, a, f)[i], a, q[i], f[i].quantity, a.instrument,
                 clock(tick + 2 * i + 1), clock(tick + 2 * i))
  {
    SoundResting(a, q, a.side.Opposite(), n, now);
    FillFromFront(Simd, a, q, MAX_ITERATIONS, i);
  }

  /** A LIMIT order on one sound queue: the third engine makes the trades of the classic one, up to
      numbers and times. */
  lemma SimdTradesAgree(w: World, clock: nat -> nat, tick: nat, a: Ord, q: seq<Ord>, n: nat, now: int, k: nat)
    requires QueueSound(q, a.side.Opposite(), n, now) && n < a.sequence && a.remaining >= 0
    requires a.typ.Limit? && a.instrument == w.instrument
    ensures var f1, f2 := Match(Classic, a, q, MAX_ITERATIONS).fills, Match(Simd, a, q, MAX_ITERATIONS).fills;
      BareTapes(TradesOf(w, a, f1, a.sequence, k)) == BareTapes(ClockTrades(clock, tick, a, f2))
  {
    SoundResting(a, q, a.side.Opposite(), n, now);
    MatchAgrees(Classic, Simd, a, a, q, q, MAX_ITERATIONS);
    FillsNewest(Classic, a, q, MAX_ITERATIONS, n);
    ClockTapesAlike(w, clock, tick, a, Match(Classic, a, q, MAX_ITERATIONS).fills,
                    Match(Simd, a, q, MAX_ITERATIONS).fills, a.sequence, k);
  }

  lemma ClockTapesAlike(w: World, clock: nat -> nat, tick: nat, a: Ord, f1: seq<Fill>, f2: seq<Fill>, n: nat, k: nat)
    requires BareFills(f1) == BareFills(f2) && Newest(a, f1) && a.instrument == w.instrument
    ensures BareTapes(TradesOf(w, a, f1, n, k)) == BareTapes(ClockTrades(clock, tick, a, f2))
  {
    assert |BareFills(f1)| == |f1| && |BareFills(f2)| == |f2|;
    var s, t := BareTapes(TradesOf(w, a, f1, n, k)), BareTapes(ClockTrades(clock, tick, a, f2));
    forall i | 0 <= i < |f1| ensures s[i] == t[i] {
      assert BareFills(f1)[i] == BareFills(f2)[i];
      ClockTradeAlike(w, a, f1[i], f2[i], TradesOf(w, a, f1, n, k)[i], ClockTrades(clock, tick, a, f2)[i]);
    }
  }

  lemma ClockTradeAlike(w: World, a: Ord, f1: Fill, f2: Fill, t1: Trade, t2: Trade)
    requires Bare(f1.maker) == Bare(f2.maker) && f1.quantity == f2.quantity && f1.maker.sequence < a.sequence
    requires a.instrument == w.instrument && t1 == TradeOf(w.instrument, a, f1, t1.sequence, t1.timestamp)
    requires t2.timestamp >= 0 && t2 == ClockTrade(a, f2, t2.timestamp, t2.sequence)
    ensures t1.(timestamp := 0, sequence := 0) == t2.(timestamp := 0, sequence := 0)
  {
    var m1, m2 := Bare(f1.maker), Bare(f2.maker);
    assert m1.id == f1.maker.id && m2.id == f2.maker.id && m1.user == f1.maker.user && m2.user == f2.maker.user;
    assert m1.price == f1.maker.price && m2.price == f2.maker.price;
  }
}
