/** Conservation: what orders, trades, counters and level totals say about the same volume. */
module MarketTotals {
  import opened Orders
  import opened Priority
  import opened PriceLevels
  import opened Matching
  import opened Market
  import opened MarketBook
  import opened MarketIndex

  // ---- Sums over the tape --------------------------------------------------------------------

  function IdOn(t: Trade, side: Side): nat { if side.Buy? then t.buyId else t.sellId }

  /** What the order `id` traded on `side`, according to the tape. */
  ghost function TradedBy(tape: seq<Trade>, side: Side, id: nat): int {
    if tape == [] then 0
    else (if IdOn(tape[0], side) == id then tape[0].quantity else 0) + TradedBy(tape[1..], side, id)
  }

  ghost function Quantities(tape: seq<Trade>): int {
    if tape == [] then 0 else tape[0].quantity + Quantities(tape[1..])
  }

  /** What the order `id` was matched for as a maker. */
  ghost function FillsOf(f: seq<Fill>, id: nat): int {
    if f == [] then 0 else (if f[0].maker.id == id then f[0].quantity else 0) + FillsOf(f[1..], id)
  }

  ghost function SumFilled(q: seq<Ord>, side: Side): int {
    if q == [] then 0 else (if q[0].side == side then q[0].filled else 0) + SumFilled(q[1..], side)
  }

  lemma {:induction false} TapeConcat(a: seq<Trade>, b: seq<Trade>, side: Side, id: nat)
    ensures TradedBy(a + b, side, id) == TradedBy(a, side, id) + TradedBy(b, side, id)
    ensures Quantities(a + b) == Quantities(a) + Quantities(b)
  {
    if a == [] {
      assert a + b == b;
    } else {
      assert (a + b)[1..] == a[1..] + b;
      TapeConcat(a[1..], b, side, id);
    }
  }

  lemma {:induction false} FilledConcat(a: seq<Ord>, b: seq<Ord>, side: Side)
    ensures SumFilled(a + b, side) == SumFilled(a, side) + SumFilled(b, side)
  {
    if a == [] {
      assert a + b == b;
    } else {
      assert (a + b)[1..] == a[1..] + b;
      FilledConcat(a[1..], b, side);
    }
  }

  /** The trades recorded for the fills of one order. */
  lemma {:induction false} TradesSum(w: World, taker: Ord, f: seq<Fill>, n: nat, k: nat, id: nat)
    ensures var t := TradesOf(w, taker, f, n, k);
      && TradedBy(t, taker.side, id) == (if id == taker.id then Volume(f) else 0)
      && TradedBy(t, taker.side.Opposite(), id) == FillsOf(f, id)
      && Quantities(t) == Volume(f)
  {
    if f != [] {
      var t := TradesOf(w, taker, f, n, k);
      assert t[1..] == TradesOf(w, taker, f[1..], n + 1, k + 1);
      TradesSum(w, taker, f[1..], n + 1, k + 1, id);
    }
  }

  lemma {:induction false} FillsAbsent(f: seq<Fill>, id: nat)
    requires forall i :: 0 <= i < |f| ==> f[i].maker.id != id
    ensures FillsOf(f, id) == 0
  {
    if f != [] { FillsAbsent(f[1..], id); }
  }

  lemma {:induction false} FillsAt(f: seq<Fill>, k: nat)
    requires k < |f| && forall i, j :: 0 <= i < j < |f| ==> f[i].maker.id != f[j].maker.id
    ensures FillsOf(f, f[k].maker.id) == f[k].quantity
  {
    if k == 0 { FillsAbsent(f[1..], f[0].maker.id); } else { FillsAt(f[1..], k - 1); }
  }

  // ---- What one matching does to the makers --------------------------------------------------

  /** What the loop trades with an order of the queue is what the fills say, by position. */
  lemma MakerFills(rule: Rule, taker: Ord, q: seq<Ord>, fuel: nat, i: nat)
    requires Live(q) && taker.remaining >= 0 && Distinct(q) && i < |q|
    ensures var f := Match(rule, taker, q, fuel).fills;
      FillsOf(f, q[i].id) == if i < |f| then f[i].quantity else 0
  {
    var f := Match(rule, taker, q, fuel).fills;
    MatchIsGreedy(rule, taker, q, fuel);
    if i < |f| { FillsAt(f, i); } else { FillsAbsent(f, q[i].id); }
  }

  /** `o` is `before` with `traded` more of it filled. */
  ghost predicate Moved(o: Ord, before: Ord, traded: int) {
    o == Traded(before, traded)
  }

  /** What an order is after the loop, by its place: traded whole, traded in part, or as it was. */
  lemma MakerAt(taker: Ord, q: seq<Ord>, fuel: nat, i: nat)
    requires Live(q) && taker.remaining >= 0 && i < |q|
    ensures var out := Match(Classic, taker, q, fuel); var g := |out.gone|;
      var traded := if i < |out.fills| then out.fills[i].quantity else 0;
      && g + |out.book| == |q| && Moved(if i < g then out.gone[i] else out.book[i - g], q[i], traded)
  {
    MatchIsGreedy(Classic, taker, q, fuel);
  }

  lemma MakersMoved(taker: Ord, q: seq<Ord>, fuel: nat)
    requires Live(q) && taker.remaining >= 0 && Distinct(q)
    ensures var out := Match(Classic, taker, q, fuel); var g := |out.gone|;
      && g + |out.book| == |q|
      && (forall i :: 0 <= i < g ==> Moved(out.gone[i], q[i], FillsOf(out.fills, q[i].id)))
      && (forall i :: 0 <= i < |out.book| ==> Moved(out.book[i], q[g + i], FillsOf(out.fills, q[g + i].id)))
  {
    var out, g := Match(Classic, taker, q, fuel), |Match(Classic, taker, q, fuel).gone|;
    LengthsMatch(taker, q, fuel);
    forall i | 0 <= i < |q|
      ensures Moved(if i < g then out.gone[i] else out.book[i - g], q[i], FillsOf(out.fills, q[i].id))
    {
      MakerAt(taker, q, fuel, i);
      MakerFills(Classic, taker, q, fuel, i);
    }
    forall i | 0 <= i < |out.book| ensures Moved(out.book[i], q[g + i], FillsOf(out.fills, q[g + i].id)) {
      assert out.book[g + i - g] == out.book[i];
    }
  }

  lemma LengthsMatch(taker: Ord, q: seq<Ord>, fuel: nat)
    requires Live(q) && taker.remaining >= 0
    ensures |Match(Classic, taker, q, fuel).gone| + |Match(Classic, taker, q, fuel).book| == |q|
  {
    MatchIsGreedy(Classic, taker, q, fuel);
  }

  lemma StrangerFills(rule: Rule, taker: Ord, q: seq<Ord>, fuel: nat, id: nat)
    requires Live(q) && taker.remaining >= 0 && !HasId(q, id)
    ensures FillsOf(Match(rule, taker, q, fuel).fills, id) == 0
  {
    MatchIsGreedy(rule, taker, q, fuel);
    FillsAbsent(Match(rule, taker, q, fuel).fills, id);
  }

  lemma {:induction false} VolumeConcat(a: seq<Fill>, b: seq<Fill>)
    ensures Volume(a + b) == Volume(a) + Volume(b)
  {
    if a == [] {
      assert a + b == b;
    } else {
      assert (a + b)[1..] == a[1..] + b;
      VolumeConcat(a[1..], b);
    }
  }

  /** Matching adds its volume to what the makers have filled. */
  lemma {:induction false} MakersFilled(rule: Rule, taker: Ord, q: seq<Ord>, fuel: nat, side: Side)
    requires forall i :: 0 <= i < |q| ==> q[i].side == side
    ensures var out := Match(rule, taker, q, fuel);
      SumFilled(out.gone, side) + SumFilled(out.book, side) == SumFilled(q, side) + Volume(out.fills)
    decreases fuel
  {
    if !Stops(rule, taker, q, fuel) {
      var once := TradeOnce(rule, taker, q);
      assert once.fills[1..] == [];
      assert SumFilled(once.gone, side) + SumFilled(once.book, side) == SumFilled(q, side) + Volume(once.fills) by {
        if once.gone == [] {
          assert once.book[1..] == q[1..];
        } else {
          assert once.gone[1..] == [];
        }
      }
      if !OneShot(rule, taker) {
        var rest := Match(rule, once.taker, once.book, fuel - 1);
        MakersFilled(rule, once.taker, once.book, fuel - 1, side);
        FilledConcat(once.gone, rest.gone, side);
        VolumeConcat(once.fills, rest.fills);
      }
    }
  }

  lemma {:induction false} OtherSideFilled(q: seq<Ord>, side: Side)
    requires forall i :: 0 <= i < |q| ==> q[i].side != side
    ensures SumFilled(q, side) == 0
  {
    if q != [] { OtherSideFilled(q[1..], side); }
  }

  // ---- The ledger ----------------------------------------------------------------------------

  /** Filled and remaining make up the quantity, and filled is what the tape says was traded. */
  ghost predicate Accounted(o: Ord, tape: seq<Trade>) {
    o.filled + o.remaining == o.quantity && o.filled == TradedBy(tape, o.side, o.id)
  }

  ghost predicate AllAccounted(q: seq<Ord>, tape: seq<Trade>) {
    forall i :: 0 <= i < |q| ==> Accounted(q[i], tape)
  }

  ghost predicate Known(s: State, id: nat) {
    HasId(s.bids.queue, id) || HasId(s.asks.queue, id) || HasId(s.done, id)
  }

  ghost predicate TapeKnown(s: State) {
    forall k :: 0 <= k < |s.tape| ==> Known(s, s.tape[k].buyId) && Known(s, s.tape[k].sellId)
  }

  ghost function FilledOn(s: State, side: Side): int {
    SumFilled(s.bids.queue, side) + SumFilled(s.asks.queue, side) + SumFilled(s.done, side)
  }

  /** The orders the engine has seen, in the book or out of it. */
  ghost predicate Accounts(s: State) {
    && AllAccounted(s.bids.queue, s.tape) && AllAccounted(s.asks.queue, s.tape) && AllAccounted(s.done, s.tape)
    && Distinct(s.done) && Apart(s.done, s.bids.queue) && Apart(s.done, s.asks.queue)
  }

  /** Orders and tape agree, every trade is between known orders, and buys, sells and the volume
      counter have the same total. */
  ghost predicate Ledger(s: State) {
    && Accounts(s)
    && TapeKnown(s)
    && s.count == |s.tape| && s.volume == Quantities(s.tape)
    && FilledOn(s, Buy) == s.volume && FilledOn(s, Sell) == s.volume
  }

  // ---- One order and the ledger --------------------------------------------------------------

  lemma TradedNow(w: World, s: State, o: Ord, side: Side, id: nat)
    ensures TradedBy(Matched(w, s, o).tape, side, id) == TradedBy(s.tape, side, id)
         + if side != o.side then FillsOf(MatchOf(w, s, o).fills, id)
           else if id == o.id then Volume(MatchOf(w, s, o).fills) else 0
  {
    NewTradesSum(w, s, o, id);
    TapeConcat(s.tape, NewTrades(w, s, o), side, id);
    assert side != o.side ==> side == o.side.Opposite();
  }

  lemma NewTradesSum(w: World, s: State, o: Ord, id: nat)
    ensures var t, f := NewTrades(w, s, o), MatchOf(w, s, o).fills;
      && TradedBy(t, o.side, id) == (if id == o.id then Volume(f) else 0)
      && TradedBy(t, o.side.Opposite(), id) == FillsOf(f, id)
      && Quantities(t) == Volume(f) && |t| == |f|
  {
    TradesSum(w, Arrived(w, s, o), MatchOf(w, s, o).fills, s.sequence + 1, s.tick + 1, id);
  }

  /** Orders that did not take part still agree with the tape. */
  lemma BystandersAccounted(w: World, s: State, o: Ord, q: seq<Ord>)
    requires BookSound(w, s) && o.remaining >= 0 && AllAccounted(q, s.tape)
    requires forall i :: 0 <= i < |q| ==> q[i].id != o.id
    requires forall i :: 0 <= i < |q| && q[i].side != o.side ==> !HasId(s.Side(o.side.Opposite()).queue, q[i].id)
    ensures AllAccounted(q, Matched(w, s, o).tape)
  {
    forall i | 0 <= i < |q| ensures Accounted(q[i], Matched(w, s, o).tape) {
      TradedNow(w, s, o, q[i].side, q[i].id);
      if q[i].side != o.side {
        StrangerFills(Classic, Arrived(w, s, o), s.Side(o.side.Opposite()).queue, MAX_ITERATIONS, q[i].id);
      }
      assert Accounted(q[i], s.tape);
    }
  }

  /** The `i`-th maker of the queue, which now is `x`. */
  lemma MovedAccounted(w: World, s: State, o: Ord, x: Ord, i: nat)
    requires BookSound(w, s) && i < |s.Side(o.side.Opposite()).queue|
    requires var before := s.Side(o.side.Opposite()).queue[i];
      Accounted(before, s.tape) && Moved(x, before, FillsOf(MatchOf(w, s, o).fills, before.id))
    ensures Accounted(x, Matched(w, s, o).tape)
  {
    var before := s.Side(o.side.Opposite()).queue[i];
    assert Sound(before, o.side.Opposite(), s.sequence, w.clock(s.tick));
    TradedNow(w, s, o, before.side, before.id);
  }

  lemma MakersAccounted(w: World, s: State, o: Ord)
    requires BookSound(w, s) && o.remaining >= 0
    requires Distinct(s.Side(o.side.Opposite()).queue) && AllAccounted(s.Side(o.side.Opposite()).queue, s.tape)
    ensures AllAccounted(MatchOf(w, s, o).gone, Matched(w, s, o).tape)
    ensures AllAccounted(MatchOf(w, s, o).book, Matched(w, s, o).tape)
  {
    var q, out := s.Side(o.side.Opposite()).queue, MatchOf(w, s, o);
    var g := |out.gone|;
    BookLive(w, s, o.side.Opposite());
    MakersMoved(Arrived(w, s, o), q, MAX_ITERATIONS);
    forall i | 0 <= i < g ensures Accounted(out.gone[i], Matched(w, s, o).tape) {
      assert Accounted(q[i], s.tape);
      MovedAccounted(w, s, o, out.gone[i], i);
    }
    forall i | 0 <= i < |out.book| ensures Accounted(out.book[i], Matched(w, s, o).tape) {
      assert Accounted(q[g + i], s.tape);
      MovedAccounted(w, s, o, out.book[i], g + i);
    }
  }

  /** The orders gone from a queue, and those left, are apart from anyone the queue was apart from. */
  lemma PartsApart(q: seq<Ord>, gone: seq<Ord>, rest: seq<Ord>, others: seq<Ord>)
    requires Parted(q, gone, rest) && Apart(others, q) && Distinct(q)
    ensures Apart(others, gone) && Apart(others, rest) && Apart(gone, rest) && Distinct(gone)
  {
    forall i, j | 0 <= i < |others| && 0 <= j < |rest| ensures others[i].id != rest[j].id {
      assert SameOrder(rest[j], q[|gone| + j]);
    }
    forall i, j | 0 <= i < |gone| && 0 <= j < |rest| ensures gone[i].id != rest[j].id {
      assert SameOrder(rest[j], q[|gone| + j]);
    }
  }

  lemma DistinctConcat(a: seq<Ord>, b: seq<Ord>)
    requires Distinct(a) && Distinct(b) && Apart(a, b)
    ensures Distinct(a + b)
  {
  }

  lemma ApartConcat(a: seq<Ord>, b: seq<Ord>, q: seq<Ord>)
    requires Apart(a, q) && Apart(b, q)
    ensures Apart(a + b, q)
  {
  }

  lemma AccountedConcat(a: seq<Ord>, b: seq<Ord>, tape: seq<Trade>)
    requires AllAccounted(a, tape) && AllAccounted(b, tape)
    ensures AllAccounted(a + b, tape)
  {
  }

  lemma MatchedAccounts(w: World, s: State, o: Ord)
    requires BookSound(w, s) && IndexAgrees(s) && Accounts(s) && o.remaining >= 0 && !Known(s, o.id)
    ensures Accounts(Matched(w, s, o))
  {
    var out, q, s' := MatchOf(w, s, o), s.Side(o.side.Opposite()).queue, Matched(w, s, o);
    var own := s.Side(o.side).queue;
    MatchParts(w, s, o);
    PartsApart(q, out.gone, out.book, s.done);
    PartsApart(q, out.gone, out.book, own);
    MakersAccounted(w, s, o);
    DistinctConcat(s.done, out.gone);
    ApartConcat(s.done, out.gone, out.book);
    ApartConcat(s.done, out.gone, own);
    OwnSide(w, s, o);
    BystandersAccounted(w, s, o, own);
    BystandersAccounted(w, s, o, s.done);
    AccountedConcat(s.done, out.gone, s'.tape);
  }

  lemma OwnSide(w: World, s: State, o: Ord)
    requires BookSound(w, s)
    ensures forall i :: 0 <= i < |s.Side(o.side).queue| ==> s.Side(o.side).queue[i].side == o.side
    ensures forall i :: 0 <= i < |s.Side(o.side.Opposite()).queue| ==> s.Side(o.side.Opposite()).queue[i].side != o.side
  {
  }

  lemma HasIdConcat(a: seq<Ord>, b: seq<Ord>, id: nat)
    ensures HasId(a + b, id) <==> HasId(a, id) || HasId(b, id)
  {
    if HasId(a, id) {
      var i :| 0 <= i < |a| && a[i].id == id;
      assert (a + b)[i].id == id;
    }
    if HasId(b, id) {
      var i :| 0 <= i < |b| && b[i].id == id;
      assert (a + b)[|a| + i].id == id;
    }
  }

  /** Matching moves orders out of the book but forgets none and invents none. */
  lemma MatchedKnown(w: World, s: State, o: Ord, id: nat)
    requires BookSound(w, s) && IndexAgrees(s) && o.remaining >= 0
    ensures Known(Matched(w, s, o), id) <==> Known(s, id)
  {
    var out := MatchOf(w, s, o);
    MatchParts(w, s, o);
    HoldsParted(s.Side(o.side.Opposite()).queue, out.gone, out.book);
    HasIdConcat(s.done, out.gone, id);
  }

  /** An order nobody knows has traded nothing. */
  lemma {:induction false} UnknownTraded(tape: seq<Trade>, side: Side, id: nat)
    requires forall k :: 0 <= k < |tape| ==> IdOn(tape[k], side) != id
    ensures TradedBy(tape, side, id) == 0
  {
    if tape != [] { UnknownTraded(tape[1..], side, id); }
  }

  lemma TakerAccounted(w: World, s: State, o: Ord)
    requires BookSound(w, s) && TapeKnown(s) && Fresh(o) && Acceptable(w, o) && !Known(s, o.id)
    ensures var t := TakerAfter(w, s, o);
      && Accounted(t, Matched(w, s, o).tape) && t.filled == Volume(MatchOf(w, s, o).fills)
      && t.id == o.id && t.side == o.side && t.user == o.user && t.price == o.price && t.typ == o.typ
  {
    var q, a := s.Side(o.side.Opposite()).queue, Arrived(w, s, o);
    MatchIsGreedy(Classic, a, q, MAX_ITERATIONS);
    MatchKeepsTerms(Classic, a, q, MAX_ITERATIONS);
    TradedNow(w, s, o, o.side, o.id);
    UnknownTraded(s.tape, o.side, o.id);
  }

  /** Makers, and whom the loop leaves in the book, are all on the other side. */
  lemma NobodyFilledHere(w: World, s: State, o: Ord)
    requires BookSound(w, s) && o.remaining >= 0
    ensures SumFilled(s.Side(o.side.Opposite()).queue, o.side) == 0
    ensures SumFilled(MatchOf(w, s, o).gone, o.side) == SumFilled(MatchOf(w, s, o).book, o.side) == 0
  {
    var q, a, out := s.Side(o.side.Opposite()).queue, Arrived(w, s, o), MatchOf(w, s, o);
    assert forall i :: 0 <= i < |q| ==> q[i].side == o.side.Opposite();
    MatchParts(w, s, o);
    GoneAt(Classic, a, q, MAX_ITERATIONS);
    assert forall i :: 0 <= i < |out.book| ==> SameOrder(out.book[i], q[|out.gone| + i]);
    OtherSideFilled(q, o.side);
    OtherSideFilled(out.gone, o.side);
    OtherSideFilled(out.book, o.side);
  }

  lemma MatchedFilled(w: World, s: State, o: Ord, side: Side)
    requires BookSound(w, s) && o.remaining >= 0
    ensures FilledOn(Matched(w, s, o), side)
         == FilledOn(s, side) + if side == o.side then 0 else Volume(MatchOf(w, s, o).fills)
  {
    var q, a, out := s.Side(o.side.Opposite()).queue, Arrived(w, s, o), MatchOf(w, s, o);
    OwnSide(w, s, o);
    assert forall i :: 0 <= i < |q| ==> q[i].side == o.side.Opposite();
    FilledConcat(s.done, out.gone, side);
    MakersFilled(Classic, a, q, MAX_ITERATIONS, o.side.Opposite());
    if side == o.side {
      NobodyFilledHere(w, s, o);
    } else {
      assert side == o.side.Opposite();
    }
  }

  lemma TradeNames(w: World, taker: Ord, f: seq<Fill>, n: nat, k: nat, i: nat)
    requires i < |f|
    ensures var t := TradesOf(w, taker, f, n, k)[i];
      (t.buyId == taker.id || t.buyId == f[i].maker.id) && (t.sellId == taker.id || t.sellId == f[i].maker.id)
  {
  }

  lemma NewTradeNames(w: World, s: State, o: Ord, i: nat)
    requires BookSound(w, s) && o.remaining >= 0 && i < |NewTrades(w, s, o)|
    ensures var t := NewTrades(w, s, o)[i];
      (Known(s, t.buyId) || t.buyId == o.id) && (Known(s, t.sellId) || t.sellId == o.id)
  {
    TradeNames(w, Arrived(w, s, o), MatchOf(w, s, o).fills, s.sequence + 1, s.tick + 1, i);
    MakersFromQueue(Classic, Arrived(w, s, o), s.Side(o.side.Opposite()).queue, MAX_ITERATIONS, i);
  }

  lemma MakersFromQueue(rule: Rule, taker: Ord, q: seq<Ord>, fuel: nat, i: nat)
    requires Live(q) && taker.remaining >= 0 && i < |Match(rule, taker, q, fuel).fills|
    ensures HasId(q, Match(rule, taker, q, fuel).fills[i].maker.id)
  {
    MatchIsGreedy(rule, taker, q, fuel);
  }

  /** The tape after an order names only orders already known, and the order itself. */
  lemma TapeNames(w: World, s: State, o: Ord, k: nat)
    requires BookSound(w, s) && TapeKnown(s) && o.remaining >= 0 && k < |Matched(w, s, o).tape|
    ensures var t := Matched(w, s, o).tape[k];
      (Known(s, t.buyId) || t.buyId == o.id) && (Known(s, t.sellId) || t.sellId == o.id)
  {
    var tape := Matched(w, s, o).tape;
    assert tape == s.tape + NewTrades(w, s, o);
    if k < |s.tape| {
      assert tape[k] == s.tape[k];
    } else {
      assert tape[k] == NewTrades(w, s, o)[k - |s.tape|];
      NewTradeNames(w, s, o, k - |s.tape|);
    }
  }

  lemma {:induction false} FilledInsert(q: seq<Ord>, n: nat, o: Ord, side: Side)
    requires n <= |q|
    ensures SumFilled(InsertAt(q, n, o), side) == SumFilled(q, side) + if o.side == side then o.filled else 0
  {
    var r := InsertAt(q, n, o);
    if n == 0 {
      assert r[1..] == q;
    } else {
      assert r[1..] == InsertAt(q[1..], n - 1, o);
      FilledInsert(q[1..], n - 1, o, side);
    }
  }

  lemma PlacedKnown(s: State, o: Ord, id: nat)
    requires IndexAgrees(s) && !Known(s, o.id)
    ensures Known(Placed(s, o), id) <==> Known(s, id) || id == o.id
  {
    if Rests(o) {
      var q := s.Side(o.side).queue;
      HoldsInsert(q, Position(o.side.Buy?, OrdKeys(q), Key(o.price, o.timestamp)), o);
    } else {
      HoldsAppend(s.done, o);
    }
  }

  lemma PlacedFilled(s: State, o: Ord, side: Side)
    requires IndexAgrees(s) && !Known(s, o.id)
    ensures FilledOn(Placed(s, o), side) == FilledOn(s, side) + if side == o.side then o.filled else 0
  {
    if Rests(o) {
      var q := s.Side(o.side).queue;
      FilledInsert(q, Position(o.side.Buy?, OrdKeys(q), Key(o.price, o.timestamp)), o, side);
    } else {
      FilledConcat(s.done, [o], side);
      assert [o][1..] == [];
    }
  }

  lemma PlacedAccounts(s: State, o: Ord)
    requires IndexAgrees(s) && Accounts(s) && !Known(s, o.id) && Accounted(o, s.tape)
    ensures Accounts(Placed(s, o))
  {
    if Rests(o) {
      var q := s.Side(o.side).queue;
      InsertAccounts(q, Position(o.side.Buy?, OrdKeys(q), Key(o.price, o.timestamp)), o, s.done, s.tape);
    } else {
      DistinctConcat(s.done, [o]);
      AccountedConcat(s.done, [o], s.tape);
    }
  }

  lemma InsertAccounts(q: seq<Ord>, n: nat, o: Ord, done: seq<Ord>, tape: seq<Trade>)
    requires n <= |q| && AllAccounted(q, tape) && Accounted(o, tape) && Apart(done, q) && !HasId(done, o.id)
    ensures AllAccounted(InsertAt(q, n, o), tape) && Apart(done, InsertAt(q, n, o))
  {
  }

  /** An order no one has seen, whatever becomes of it, keeps the ledger. */
  lemma ProcessKeepsLedger(w: World, s: State, o: Ord)
    requires NeverBackwards(w) && BookSound(w, s) && IndexAgrees(s) && Ledger(s) && Fresh(o) && !Known(s, o.id)
    ensures Ledger(Process(w, s, o))
    ensures forall id :: Known(Process(w, s, o), id) ==> Known(s, id) || id == o.id
  {
    if Acceptable(w, o) {
      var s', t := Matched(w, s, o), TakerAfter(w, s, o);
      MatchedIndex(w, s, o);
      MatchedAccounts(w, s, o);
      TakerAccounted(w, s, o);
      forall id ensures Known(s', id) <==> Known(s, id) { MatchedKnown(w, s, o, id); }
      PlacedAccounts(s', t);
      forall id ensures Known(Placed(s', t), id) <==> Known(s', id) || id == t.id { PlacedKnown(s', t, id); }
      forall k | 0 <= k < |s'.tape|
        ensures Known(Placed(s', t), s'.tape[k].buyId) && Known(Placed(s', t), s'.tape[k].sellId)
      {
        TapeNames(w, s, o, k);
      }
      LedgerCounts(w, s, o);
    }
  }

  lemma MatchedCounters(w: World, s: State, o: Ord)
    requires s.count == |s.tape| && s.volume == Quantities(s.tape)
    ensures var s' := Matched(w, s, o);
      && s'.count == |s'.tape| && s'.volume == Quantities(s'.tape)
      && s'.volume == s.volume + Volume(MatchOf(w, s, o).fills)
  {
    NewTradesSum(w, s, o, o.id);
    TapeConcat(s.tape, NewTrades(w, s, o), Buy, 0);
  }

  lemma ProcessFilled(w: World, s: State, o: Ord, side: Side)
    requires BookSound(w, s) && IndexAgrees(s) && TapeKnown(s) && Fresh(o) && Acceptable(w, o) && !Known(s, o.id)
    ensures FilledOn(Placed(Matched(w, s, o), TakerAfter(w, s, o)), side)
         == FilledOn(s, side) + Volume(MatchOf(w, s, o).fills)
  {
    MatchedIndex(w, s, o);
    MatchedKnown(w, s, o, o.id);
    TakerAccounted(w, s, o);
    MatchedFilled(w, s, o, side);
    PlacedFilled(Matched(w, s, o), TakerAfter(w, s, o), side);
  }

  lemma LedgerCounts(w: World, s: State, o: Ord)
    requires BookSound(w, s) && IndexAgrees(s) && Ledger(s) && Fresh(o) && Acceptable(w, o) && !Known(s, o.id)
    ensures var s' := Placed(Matched(w, s, o), TakerAfter(w, s, o));
      && s'.count == |s'.tape| && s'.volume == Quantities(s'.tape)
      && FilledOn(s', Buy) == s'.volume && FilledOn(s', Sell) == s'.volume
  {
    ProcessFilled(w, s, o, Buy);
    ProcessFilled(w, s, o, Sell);
    MatchedCounters(w, s, o);
    PlacedCounters(Matched(w, s, o), TakerAfter(w, s, o));
  }

  lemma PlacedCounters(s: State, o: Ord)
    ensures Placed(s, o).tape == s.tape && Placed(s, o).count == s.count && Placed(s, o).volume == s.volume
  {
  }

  // ---- Cancelling and the ledger --------------------------------------------------------------

  lemma {:induction false} FilledWithout(q: seq<Ord>, i: nat, side: Side)
    requires i < |q|
    ensures SumFilled(q, side) == SumFilled(Without(q, i), side) + if q[i].side == side then q[i].filled else 0
  {
    if i == 0 {
      assert Without(q, 0) == q[1..];
    } else {
      assert Without(q, i)[1..] == Without(q[1..], i - 1);
      FilledWithout(q[1..], i - 1, side);
    }
  }

  lemma RemovedFilled(s: State, side: Side, i: nat, on: Side)
    requires i < |s.Side(side).queue|
    ensures FilledOn(Removed(s, side, i), on) == FilledOn(s, on)
  {
    var o := s.Side(side).queue[i].(status := Cancelled);
    FilledWithout(s.Side(side).queue, i, on);
    FilledConcat(s.done, [o], on);
    assert [o][1..] == [];
  }

  lemma RemovedKnown(s: State, side: Side, i: nat, id: nat)
    requires IndexAgrees(s) && i < |s.Side(side).queue|
    ensures Known(Removed(s, side, i), id) <==> Known(s, id)
  {
    HoldsWithout(s.Side(side).queue, i);
    HoldsAppend(s.done, s.Side(side).queue[i].(status := Cancelled));
  }

  lemma RemovedAccounts(s: State, side: Side, i: nat)
    requires IndexAgrees(s) && Accounts(s) && i < |s.Side(side).queue|
    ensures Accounts(Removed(s, side, i))
  {
    var q, o := s.Side(side).queue, s.Side(side).queue[i].(status := Cancelled);
    var other := s.Side(side.Opposite()).queue;
    assert Accounted(q[i], s.tape);
    AccountedConcat(s.done, [o], s.tape);
    DistinctConcat(s.done, [o]);
    TakenApart(q, i, s.done);
    ApartConcat(s.done, [o], Without(q, i));
    assert Apart([o], other);
    ApartConcat(s.done, [o], other);
  }

  lemma TakenApart(q: seq<Ord>, i: nat, others: seq<Ord>)
    requires i < |q| && Distinct(q) && Apart(others, q)
    ensures Apart(others, Without(q, i)) && forall j :: 0 <= j < |q| - 1 ==> Without(q, i)[j].id != q[i].id
  {
  }

  lemma RemovedLedger(s: State, side: Side, i: nat)
    requires IndexAgrees(s) && Ledger(s) && i < |s.Side(side).queue|
    ensures Ledger(Removed(s, side, i))
    ensures forall id :: Known(Removed(s, side, i), id) <==> Known(s, id)
  {
    RemovedAccounts(s, side, i);
    forall id ensures Known(Removed(s, side, i), id) <==> Known(s, id) { RemovedKnown(s, side, i, id); }
    RemovedFilled(s, side, i, Buy);
    RemovedFilled(s, side, i, Sell);
  }

  lemma CancelKeepsLedger(s: State, id: nat, user: nat)
    requires IndexAgrees(s) && Ledger(s)
    ensures Ledger(Cancel(s, id, user))
    ensures forall x :: Known(Cancel(s, id, user), x) <==> Known(s, x)
  {
    if HasId(s.bids.queue, id) {
      RemovedLedger(s, Buy, IndexOf(s.bids.queue, id));
    } else if HasId(s.asks.queue, id) {
      RemovedLedger(s, Sell, IndexOf(s.asks.queue, id));
    }
  }

  lemma {:induction false} CancelEachKeepsLedger(s: State, ids: seq<nat>, user: nat)
    requires IndexAgrees(s) && Ledger(s)
    ensures Ledger(CancelEach(s, ids, user))
    ensures forall x :: Known(CancelEach(s, ids, user), x) <==> Known(s, x)
  {
    if ids != [] {
      CancelEachKeepsLedger(s, ids[..|ids| - 1], user);
      CancelEachKeepsIndex(s, ids[..|ids| - 1], user);
      CancelKeepsLedger(CancelEach(s, ids[..|ids| - 1], user), ids[|ids| - 1], user);
    }
  }
}
