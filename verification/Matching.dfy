/** The matching loop as a function of values, and what it does in closed form. The book is the
    opposite side's queue, best order first. */
module Matching {
  import opened Orders
  import opened Priority

  /** Three engines run the same loop with small differences. */
  datatype Rule = Classic | Deterministic | Simd

  const MAX_ITERATIONS: nat := 10000

  datatype Fill = Fill(maker: Ord, quantity: int)

  /** `gone` are the makers that left the book, filled. */
  datatype Outcome = Outcome(taker: Ord, book: seq<Ord>, fills: seq<Fill>, gone: seq<Ord>)

  function Min(a: int, b: int): int { if b < a then b else a }

  predicate PriceCrosses(taker: Ord, maker: Ord) {
    if taker.side.Buy? then taker.price >= maker.price else taker.price <= maker.price
  }

  predicate CanMatch(rule: Rule, taker: Ord, maker: Ord) {
    match rule
    case Classic =>
      taker.side != maker.side && (taker.typ.Market? || maker.typ.Market? || PriceCrosses(taker, maker))
    case Deterministic => PriceCrosses(taker, maker)
    case Simd => maker.price != 0 && PriceCrosses(taker, maker)
  }

  /** IOC and FOK orders leave the loop after one trade, except in the SIMD engine. */
  predicate OneShot(rule: Rule, taker: Ord) {
    !rule.Simd? && (taker.typ.IOC? || taker.typ.FOK?)
  }

  function Traded(o: Ord, q: int): Ord {
    o.(filled := o.filled + q, remaining := o.remaining - q)
  }

  function FillStatus(o: Ord): Status { if o.remaining == 0 then Filled else PartialFilled }

  /** An order right after a trade; only the SIMD engine touches statuses here. */
  function Stamped(rule: Rule, o: Ord, q: int): Ord {
    var o' := Traded(o, q);
    if rule.Simd? then o'.(status := FillStatus(o')) else o'
  }

  predicate Stops(rule: Rule, taker: Ord, book: seq<Ord>, fuel: nat) {
    taker.remaining <= 0 || book == [] || fuel == 0 || !CanMatch(rule, taker, book[0])
  }

  /** One trade against the front of the book. A one-shot order with something left is cancelled, unless
      the trade emptied the book. */
  function TradeOnce(rule: Rule, taker: Ord, book: seq<Ord>): Outcome
    requires book != []
  {
    var maker := book[0];
    var q := Min(taker.remaining, maker.remaining);
    var taker', maker' := Stamped(rule, taker, q), Stamped(rule, maker, q);
    var emptied := maker'.IsFilled() && |book| == 1;
    var left := if OneShot(rule, taker) && taker'.remaining > 0 && !emptied then taker'.(status := Cancelled)
      else taker';
    if maker'.IsFilled() then Outcome(left, book[1..], [Fill(maker, q)], [maker'])
    else Outcome(left, [maker'] + book[1..], [Fill(maker, q)], [])
  }

  /** What `first` did, followed by what `rest` did. */
  function Then(first: Outcome, rest: Outcome): Outcome {
    Outcome(rest.taker, rest.book, first.fills + rest.fills, first.gone + rest.gone)
  }

  function Match(rule: Rule, taker: Ord, book: seq<Ord>, fuel: nat): Outcome
    decreases fuel, book
  {
    if Stops(rule, taker, book, fuel) then Outcome(taker, book, [], [])
    else
      var once := TradeOnce(rule, taker, book);
      if OneShot(rule, taker) then once
      else Then(once, Match(rule, once.taker, once.book, fuel - 1))
  }

  /** The status an order leaves the loop with. */
  function Settled(o: Ord): Ord {
    if o.remaining == 0 then o.(status := Filled)
    else if o.filled > 0 then o.(status := PartialFilled)
    else o
  }

  /** Two moments of one order, as far as its trades quote it. */
  ghost predicate SameOrigin(t: Ord, a: Ord) {
    t.id == a.id && t.user == a.user && t.side == a.side && t.instrument == a.instrument
  }

  /** IOC and FOK orders leave the loop after one trade, cancelled if something is left. */
  method LeaveIfOneShot(ghost rule: Rule, order: Order, emptied: bool) returns (stop: bool)
    requires !rule.Simd?
    modifies order`status
    ensures stop == (emptied || OneShot(rule, old(order.View())))
    ensures order.View() == if OneShot(rule, old(order.View())) && order.remaining > 0 && !emptied
      then old(order.View()).(status := Cancelled) else old(order.View())
  {
    stop := emptied;
    if !emptied && (order.typ.IOC? || order.typ.FOK?) {
      if order.remaining > 0 {
        order.status := Cancelled;
      }
      stop := true;
    }
  }

  /** What the loop leaves in an order's status. */
  method SettleStatus(order: Order)
    modifies order`status
    ensures order.View() == Settled(old(order.View()))
  {
    if order.remaining == 0 {
      order.status := Filled;
    } else if order.filled > 0 {
      order.status := PartialFilled;
    }
  }

  // ---- The greedy law ---------------------------------------------------------------------

  ghost function Remaining(s: seq<Ord>): int {
    if s == [] then 0 else s[0].remaining + Remaining(s[1..])
  }

  function Volume(f: seq<Fill>): int {
    if f == [] then 0 else f[0].quantity + Volume(f[1..])
  }

  /** How many orders at the front of the book the taker can trade with. */
  ghost function Reach(rule: Rule, taker: Ord, book: seq<Ord>): (n: nat)
    ensures n <= |book|
  {
    if book == [] || !CanMatch(rule, taker, book[0]) then 0 else 1 + Reach(rule, taker, book[1..])
  }

  ghost predicate Live(book: seq<Ord>) {
    forall i :: 0 <= i < |book| ==> book[i].remaining > 0 && !book[i].status.Filled?
  }

  /** Trading with a taker's quantity does not change whom it can trade with. */
  lemma {:induction false} ReachBounds(rule: Rule, taker: Ord, book: seq<Ord>)
    ensures Reach(rule, taker, book) <= |book|
    ensures forall i :: 0 <= i < Reach(rule, taker, book) ==> CanMatch(rule, taker, book[i])
    ensures Reach(rule, taker, book) < |book| ==> !CanMatch(rule, taker, book[Reach(rule, taker, book)])
  {
    if book != [] && CanMatch(rule, taker, book[0]) {
      ReachBounds(rule, taker, book[1..]);
      assert forall i :: 1 <= i < |book| ==> book[i] == book[1..][i - 1];
    }
  }

  ghost predicate SameTerms(a: Ord, b: Ord) { a.side == b.side && a.typ == b.typ && a.price == b.price }

  lemma {:induction false} ReachSame(rule: Rule, a: Ord, b: Ord, book: seq<Ord>)
    requires SameTerms(a, b)
    ensures Reach(rule, a, book) == Reach(rule, b, book)
  {
    if book != [] { ReachSame(rule, a, b, book[1..]); }
  }

  /** The fills are exactly the front of the book. The first `g` makers are consumed whole and leave; at
      most one more is traded with, and only if the taker then has nothing left. */
  ghost predicate Greedy(rule: Rule, taker: Ord, book: seq<Ord>, out: Outcome) {
    var k, g := |out.fills|, |out.gone|;
    && g <= k <= Reach(rule, taker, book) && k <= g + 1
    && (forall i :: 0 <= i < k ==> out.fills[i].maker == book[i])
    && (forall i :: 0 <= i < g ==> out.fills[i].quantity == book[i].remaining)
    && (forall i :: 0 <= i < g ==> out.gone[i] == Stamped(rule, book[i], book[i].remaining))
    && 0 <= out.taker.remaining == taker.remaining - Volume(out.fills)
    && out.taker.filled == taker.filled + Volume(out.fills)
    && (k == g ==> out.book == book[g..])
    && (k > g ==>
          && 0 < out.fills[g].quantity < book[g].remaining
          && out.book == [Stamped(rule, book[g], out.fills[g].quantity)] + book[k..]
          && out.taker.remaining == 0)
  }

  lemma {:induction false} MatchIsGreedy(rule: Rule, taker: Ord, book: seq<Ord>, fuel: nat)
    requires Live(book) && taker.remaining >= 0
    ensures Greedy(rule, taker, book, Match(rule, taker, book, fuel))
    decreases fuel
  {
    if Stops(rule, taker, book, fuel) {
      NothingGreedy(rule, taker, book);
    } else {
      OneTradeGreedy(rule, taker, book);
      if !OneShot(rule, taker) {
        var once := TradeOnce(rule, taker, book);
        var rest := Match(rule, once.taker, once.book, fuel - 1);
        if once.gone == [] {
          ThenNothing(once, rest);
        } else {
          MatchIsGreedy(rule, once.taker, once.book, fuel - 1);
          GreedyStep(rule, taker, book, rest);
        }
      }
    }
  }

  lemma NothingGreedy(rule: Rule, taker: Ord, book: seq<Ord>)
    requires taker.remaining >= 0
    ensures Greedy(rule, taker, book, Outcome(taker, book, [], []))
  {
  }

  lemma ThenNothing(once: Outcome, rest: Outcome)
    requires rest == Outcome(once.taker, once.book, [], [])
    ensures Then(once, rest) == once
  {
  }

  lemma OneTradeGreedy(rule: Rule, taker: Ord, book: seq<Ord>)
    requires Live(book) && taker.remaining > 0 && book != [] && CanMatch(rule, taker, book[0])
    ensures Greedy(rule, taker, book, TradeOnce(rule, taker, book))
    ensures TradeOnce(rule, taker, book).gone == [] ==> TradeOnce(rule, taker, book).taker.remaining == 0
    ensures Live(TradeOnce(rule, taker, book).book)
  {
    ReachBounds(rule, taker, book);
    var once := TradeOnce(rule, taker, book);
    assert Volume(once.fills) == once.fills[0].quantity + Volume(once.fills[1..]);
    assert once.fills[1..] == [];
  }

  /** Consuming the front order whole and then being greedy on the rest is greedy. */
  lemma GreedyStep(rule: Rule, taker: Ord, book: seq<Ord>, rest: Outcome)
    requires Live(book) && taker.remaining > 0 && book != [] && CanMatch(rule, taker, book[0])
    requires TradeOnce(rule, taker, book).gone != []
    requires Greedy(rule, TradeOnce(rule, taker, book).taker, book[1..], rest)
    ensures Greedy(rule, taker, book, Then(TradeOnce(rule, taker, book), rest))
  {
    var once := TradeOnce(rule, taker, book);
    var out := Then(once, rest);
    ReachBounds(rule, taker, book);
    ReachSame(rule, taker, once.taker, book[1..]);
    assert out.fills[1..] == rest.fills;
    assert Volume(out.fills) == once.fills[0].quantity + Volume(rest.fills);
    var k := |out.fills|;
    assert book[1..][k - 1..] == book[k..];
    forall i | 0 <= i < k ensures out.fills[i].maker == book[i] {
      if i > 0 { assert out.fills[i] == rest.fills[i - 1]; }
    }
  }

  // ---- Records ----------------------------------------------------------------------------

  /** `t` records a trade of `taker` with the resting order `m`: each on its own side under its own user, at the
      maker's price, flagged by the side of the taker. */
  ghost predicate Records(t: Trade, taker: Ord, m: Ord, quantity: int, instrument: nat, sequence: nat, now: int) {
    && t.price == m.price && t.quantity == quantity && t.instrument == instrument
    && t.sequence == sequence && t.timestamp == now
    && (taker.side.Buy? ==> t.takerBuy && t.buyId == taker.id && t.buyUser == taker.user && t.sellId == m.id
                            && t.sellUser == m.user)
    && (taker.side.Sell? ==> !t.takerBuy && t.sellId == taker.id && t.sellUser == taker.user && t.buyId == m.id
                             && t.buyUser == m.user)
  }

  lemma FillFromFront(rule: Rule, taker: Ord, q: seq<Ord>, fuel: nat, i: nat)
    requires Live(q) && taker.remaining >= 0 && i < |Match(rule, taker, q, fuel).fills|
    ensures var f := Match(rule, taker, q, fuel).fills[i];
      i < |q| && f.maker == q[i] && 0 < f.quantity <= q[i].remaining
  {
    MatchIsGreedy(rule, taker, q, fuel);
  }

  // ---- Complete matching ------------------------------------------------------------------

  /** Below the iteration limit the loop ends only because nothing is left to do. */
  lemma {:induction false} MatchStops(rule: Rule, taker: Ord, book: seq<Ord>, fuel: nat)
    requires !OneShot(rule, taker) && |Match(rule, taker, book, fuel).fills| < fuel
    ensures var out := Match(rule, taker, book, fuel);
      out.taker.remaining <= 0 || out.book == [] || !CanMatch(rule, out.taker, out.book[0])
    decreases fuel
  {
    if !Stops(rule, taker, book, fuel) {
      var once := TradeOnce(rule, taker, book);
      MatchStops(rule, once.taker, once.book, fuel - 1);
    }
  }

  lemma {:induction false} RemainingMonotone(book: seq<Ord>, k: nat, m: nat)
    requires Live(book) && k <= m <= |book|
    ensures Remaining(book[..k]) <= Remaining(book[..m])
    ensures k < m ==> Remaining(book[..k]) + book[k].remaining <= Remaining(book[..m])
    decreases |book|
  {
    if k == 0 {
      if m > 0 {
        assert book[..m] == [book[0]] + book[1..][..m - 1];
        RemainingMonotone(book[1..], 0, m - 1);
      }
    } else {
      RemainingMonotone(book[1..], k - 1, m - 1);
      assert book[..k][1..] == book[1..][..k - 1] && book[..m][1..] == book[1..][..m - 1];
    }
  }

  lemma {:induction false} VolumeOfFront(f: seq<Fill>, book: seq<Ord>)
    requires |f| <= |book|
    requires forall i :: 0 <= i < |f| - 1 ==> f[i].quantity == book[i].remaining
    ensures |f| > 0 ==> Volume(f) == Remaining(book[..|f|]) - book[|f| - 1].remaining + f[|f| - 1].quantity
    ensures f == [] ==> Volume(f) == 0
    decreases |f|
  {
    if |f| == 1 {
      assert f[1..] == [] && book[..1] == [book[0]] && [book[0]][1..] == [];
    } else if |f| > 1 {
      VolumeOfFront(f[1..], book[1..]);
      assert book[..|f|][1..] == book[1..][..|f| - 1];
    }
  }

  /** A taker that may trade repeatedly, below the limit, trades as much as both sides allow. */
  lemma MatchComplete(rule: Rule, taker: Ord, book: seq<Ord>, fuel: nat)
    requires Live(book) && taker.remaining >= 0 && !OneShot(rule, taker)
    requires |Match(rule, taker, book, fuel).fills| < fuel
    ensures Volume(Match(rule, taker, book, fuel).fills)
         == Min(taker.remaining, Remaining(book[..Reach(rule, taker, book)]))
  {
    var out, m := Match(rule, taker, book, fuel), Reach(rule, taker, book);
    var k := |out.fills|;
    MatchIsGreedy(rule, taker, book, fuel);
    MatchStops(rule, taker, book, fuel);
    MatchKeepsTerms(rule, taker, book, fuel);
    ReachBounds(rule, taker, book);
    VolumeOfFront(out.fills, book);
    RemainingMonotone(book, k, m);
    RemainingMonotone(book, 0, m);
    assert book[..0] == [];
    if out.taker.remaining > 0 {
      assert out.book == book[k..];
      assert k == m;
    }
  }

  lemma {:induction false} FillsWithinFuel(rule: Rule, taker: Ord, book: seq<Ord>, fuel: nat)
    requires !OneShot(rule, taker)
    ensures |Match(rule, taker, book, fuel).fills| <= fuel
    decreases fuel
  {
    if !Stops(rule, taker, book, fuel) {
      var once := TradeOnce(rule, taker, book);
      FillsWithinFuel(rule, once.taker, once.book, fuel - 1);
    }
  }

  /** The outcome still has a match waiting: the taker wants more, and the front of the book matches it. */
  predicate Waiting(rule: Rule, out: Outcome) {
    out.taker.remaining > 0 && out.book != [] && CanMatch(rule, out.taker, out.book[0])
  }

  /** The loop stops with a match waiting exactly when more orders are in reach than it may trade with, and as
      many of them as it may trade with do not fill the taker. */
  lemma WaitingExactly(rule: Rule, taker: Ord, book: seq<Ord>, fuel: nat)
    requires Live(book) && taker.remaining >= 0 && !OneShot(rule, taker)
    ensures Waiting(rule, Match(rule, taker, book, fuel)) <==>
      Reach(rule, taker, book) > fuel && Remaining(book[..fuel]) < taker.remaining
  {
    var out := Match(rule, taker, book, fuel);
    var k := |out.fills|;
    MatchIsGreedy(rule, taker, book, fuel);
    MatchKeepsTerms(rule, taker, book, fuel);
    FillsWithinFuel(rule, taker, book, fuel);
    if k < fuel { MatchStops(rule, taker, book, fuel); }
    WaitingOf(rule, taker, book, fuel, out);
  }

  lemma WaitingOf(rule: Rule, taker: Ord, book: seq<Ord>, fuel: nat, out: Outcome)
    requires Live(book) && Greedy(rule, taker, book, out) && SameTerms(out.taker, taker) && |out.fills| <= fuel
    requires |out.fills| < fuel ==> !Waiting(rule, out)
    ensures Waiting(rule, out) <==>
      Reach(rule, taker, book) > fuel && Remaining(book[..fuel]) < taker.remaining
  {
    var k, g, m := |out.fills|, |out.gone|, Reach(rule, taker, book);
    ReachBounds(rule, taker, book);
    VolumeOfFront(out.fills, book);
    assert book[..0] == [];
    if m > fuel {
      RemainingMonotone(book, k, fuel);
      assert g < |book| && CanMatch(rule, taker, book[g]);
    }
  }

  lemma {:induction false} MatchKeepsTerms(rule: Rule, taker: Ord, book: seq<Ord>, fuel: nat)
    ensures var t := Match(rule, taker, book, fuel).taker;
      && SameTerms(t, taker) && t.id == taker.id && t.user == taker.user && t.quantity == taker.quantity
      && t.instrument == taker.instrument && t.timestamp == taker.timestamp && t.sequence == taker.sequence
    decreases fuel
  {
    if !Stops(rule, taker, book, fuel) && !OneShot(rule, taker) {
      var once := TradeOnce(rule, taker, book);
      MatchKeepsTerms(rule, once.taker, once.book, fuel - 1);
    }
  }

  /** On a book in priority order the reach is everyone the taker can trade with. */
  lemma ReachIsEveryone(rule: Rule, taker: Ord, book: seq<Ord>)
    requires forall i :: 0 <= i < |book| ==>
      book[i].side == taker.side.Opposite() && book[i].typ.Limit? && book[i].price > 0
    requires Sorted(taker.side.Sell?, OrdKeys(book))
    ensures forall i :: 0 <= i < |book| ==> (CanMatch(rule, taker, book[i]) <==> i < Reach(rule, taker, book))
  {
    var m := Reach(rule, taker, book);
    ReachBounds(rule, taker, book);
    forall i | m < i < |book| ensures !CanMatch(rule, taker, book[i]) {
      assert !Ahead(taker.side.Sell?, OrdKeys(book)[i], OrdKeys(book)[m]);
    }
  }

  // ---- Three loops, one behaviour -----------------------------------------------------------

  /** An order without its status, and without its stamps. */
  function Bare(o: Ord): Ord { o.(status := Pending, timestamp := 0, sequence := 0) }

  function BareAll(s: seq<Ord>): seq<Ord> { seq(|s|, i requires 0 <= i < |s| => Bare(s[i])) }

  function BareFills(f: seq<Fill>): seq<Fill> {
    seq(|f|, i requires 0 <= i < |f| => Fill(Bare(f[i].maker), f[i].quantity))
  }

  ghost predicate SameOutcome(a: Outcome, b: Outcome) {
    && Bare(a.taker) == Bare(b.taker) && BareAll(a.book) == BareAll(b.book)
    && BareFills(a.fills) == BareFills(b.fills) && BareAll(a.gone) == BareAll(b.gone)
  }

  ghost predicate Resting(taker: Ord, book: seq<Ord>) {
    forall i :: 0 <= i < |book| ==>
      book[i].side == taker.side.Opposite() && book[i].typ.Limit? && book[i].price > 0 && !book[i].status.Filled?
  }

  /** Books that differ only in statuses and stamps: a LIMIT taker meets the same fate under every rule,
      and any taker does under the same rule. */
  lemma {:induction false} MatchAgrees(r1: Rule, r2: Rule, t1: Ord, t2: Ord, b1: seq<Ord>, b2: seq<Ord>, fuel: nat)
    requires r1 == r2 || t1.typ.Limit?
    requires Bare(t1) == Bare(t2) && BareAll(b1) == BareAll(b2)
    requires Resting(t1, b1) && Resting(t2, b2)
    ensures SameOutcome(Match(r1, t1, b1, fuel), Match(r2, t2, b2, fuel))
    decreases fuel
  {
    BareAt(b1, b2);
    if !Stops(r1, t1, b1, fuel) {
      var o1, o2 := TradeOnce(r1, t1, b1), TradeOnce(r2, t2, b2);
      TradeAgrees(r1, r2, t1, t2, b1, b2);
      if !OneShot(r1, t1) {
        MatchAgrees(r1, r2, o1.taker, o2.taker, o1.book, o2.book, fuel - 1);
        var m1, m2 := Match(r1, o1.taker, o1.book, fuel - 1), Match(r2, o2.taker, o2.book, fuel - 1);
        ThenAgrees(o1, o2, m1, m2);
        assert Match(r1, t1, b1, fuel) == Then(o1, m1);
        assert Match(r2, t2, b2, fuel) == Then(o2, m2);
      }
    }
  }

  lemma BareAt(a: seq<Ord>, b: seq<Ord>)
    requires BareAll(a) == BareAll(b)
    ensures |a| == |b| && forall i :: 0 <= i < |a| ==> Bare(a[i]) == Bare(b[i])
  {
    assert |BareAll(a)| == |a| && |BareAll(b)| == |b|;
    forall i | 0 <= i < |a| ensures Bare(a[i]) == Bare(b[i]) {
      assert BareAll(a)[i] == BareAll(b)[i];
    }
  }

  lemma BareConcat(a: Outcome, b: Outcome)
    ensures BareFills(Then(a, b).fills) == BareFills(a.fills) + BareFills(b.fills)
    ensures BareAll(Then(a, b).gone) == BareAll(a.gone) + BareAll(b.gone)
  {
  }

  lemma ThenAgrees(o1: Outcome, o2: Outcome, m1: Outcome, m2: Outcome)
    requires SameOutcome(o1, o2) && SameOutcome(m1, m2)
    ensures SameOutcome(Then(o1, m1), Then(o2, m2))
  {
    BareConcat(o1, m1);
    BareConcat(o2, m2);
  }

  lemma StampedAgrees(r1: Rule, r2: Rule, o1: Ord, o2: Ord, q: int)
    requires Bare(o1) == Bare(o2)
    ensures Bare(Stamped(r1, o1, q)) == Bare(Stamped(r2, o2, q))
  {
  }

  /** A trade leaves the book in the state `Resting` asks for. */
  lemma TradeRests(rule: Rule, t: Ord, b: seq<Ord>)
    requires Resting(t, b) && b != []
    ensures Resting(TradeOnce(rule, t, b).taker, TradeOnce(rule, t, b).book)
  {
    assert Stamped(rule, b[0], Min(t.remaining, b[0].remaining)).typ.Limit?;
  }

  lemma TradeAgrees(r1: Rule, r2: Rule, t1: Ord, t2: Ord, b1: seq<Ord>, b2: seq<Ord>)
    requires r1 == r2 || t1.typ.Limit?
    requires Bare(t1) == Bare(t2) && BareAll(b1) == BareAll(b2) && b1 != []
    requires Resting(t1, b1) && Resting(t2, b2) && t1.remaining > 0
    ensures b2 != [] && SameOutcome(TradeOnce(r1, t1, b1), TradeOnce(r2, t2, b2))
    ensures Resting(TradeOnce(r1, t1, b1).taker, TradeOnce(r1, t1, b1).book)
    ensures Resting(TradeOnce(r2, t2, b2).taker, TradeOnce(r2, t2, b2).book)
  {
    BareAt(b1, b2);
    TradeRests(r1, t1, b1);
    TradeRests(r2, t2, b2);
    var o1, o2, q := TradeOnce(r1, t1, b1), TradeOnce(r2, t2, b2), Min(t1.remaining, b1[0].remaining);
    StampedAgrees(r1, r2, t1, t2, q);
    StampedAgrees(r1, r2, b1[0], b2[0], q);
    assert |o1.book| == |o2.book|;
    forall i | 0 <= i < |o1.book| ensures Bare(o1.book[i]) == Bare(o2.book[i]) {
    }
  }
}
