/** What the engine's operations do to one side of the book, as steps a tree can take: insertions, trades with the
    front, removals. */
module MarketSteps {
  import opened Orders
  import opened Priority
  import opened PriceLevels
  import opened Matching
  import opened Market
  import opened MarketBook
  import opened MarketIndex
  import opened MarketTotals
  import opened MarketLevels
  import opened MarketRuns
  import Colours
  import B = BookRuns
  import opened FrontRuns
  import opened OrderBook

  // ---- Matching as steps --------------------------------------------------------------------

  /** The trades with the front of the queue; the first `g` makers leave. */
  function FillSteps(f: seq<Fill>, g: nat): seq<B.Step> {
    if f == [] then []
    else if g == 0 then [B.TradeFront(f[0].quantity)] + FillSteps(f[1..], 0)
    else [B.TradeFront(f[0].quantity), B.Leave(f[0].maker.id)] + FillSteps(f[1..], g - 1)
  }

  lemma {:induction false} FillNobody(f: seq<Fill>, g: nat)
    ensures B.NoEntry(FillSteps(f, g))
    decreases |f|
  {
    if f != [] { FillNobody(f[1..], if g == 0 then 0 else g - 1); }
  }

  /** No level is empty. */
  ghost predicate Standing(h: Half) {
    h.since.Keys == h.totals.Keys && forall p :: p in h.totals ==> h.totals[p] > 0
  }

  /** Every resting order has a level. */
  ghost predicate Levelled(h: Half) {
    && Standing(h)
    && forall i :: 0 <= i < |h.queue| ==> h.queue[i].price in h.totals
  }

  lemma {:induction false} AddFillsConcat(t: map<int, int>, a: seq<Fill>, b: seq<Fill>)
    ensures AddFills(t, a + b) == AddFills(AddFills(t, a), b)
    decreases |b|
  {
    if b == [] {
      assert a + b == a;
    } else {
      var n := |b| - 1;
      assert (a + b)[..|a + b| - 1] == a + b[..n];
      AddFillsConcat(t, a, b[..n]);
    }
  }

  /** The makers that leave have nothing remaining, and everyone traded with had a level. */
  ghost predicate Quiet(h: Half, out: Outcome) {
    && (forall i :: 0 <= i < |out.gone| ==> out.gone[i].remaining == 0 && out.gone[i].price in h.totals)
    && (forall i :: 0 <= i < |out.fills| ==> out.fills[i].maker.price in h.totals)
  }

  lemma QuietMatch(h: Half, out: Outcome)
    requires Standing(h) && Quiet(h, out)
    ensures AfterMatch(h, out) == Half(out.book, h.totals, AddFills(h.since, out.fills))
    ensures Standing(AfterMatch(h, out))
  {
    TakeNothing(h.totals, out.gone);
    assert forall p :: p in h.since.Keys <==> p in h.totals.Keys;
    AddFillsExact(h.since, out.fills);
    var t := AddFills(h.since, out.fills);
    assert t.Keys == h.totals.Keys by {
      assert forall p :: p in t.Keys <==> p in h.since.Keys;
    }
    assert Restricted(t, h.totals.Keys) == t;
  }

  lemma QuietThen(h: Half, once: Outcome, rest: Outcome)
    requires Standing(h) && Quiet(h, once) && Quiet(h, rest)
    ensures AfterMatch(h, Then(once, rest)) == AfterMatch(AfterMatch(h, once), rest)
    ensures Quiet(h, Then(once, rest))
  {
    QuietMatch(h, once);
    QuietMatch(AfterMatch(h, once), rest);
    QuietMatch(h, Then(once, rest));
    AddFillsConcat(h.since, once.fills, rest.fills);
  }

  lemma QuietGreedy(rule: Rule, taker: Ord, h: Half, fuel: nat)
    requires !rule.Simd?
    requires Levelled(h) && Live(h.queue) && taker.remaining >= 0
    ensures Quiet(h, Match(rule, taker, h.queue, fuel))
  {
    var out := Match(rule, taker, h.queue, fuel);
    MatchIsGreedy(rule, taker, h.queue, fuel);
    GreedyPrices(rule, taker, h.queue, out);
  }

  /** One trade with the front order, which leaves if that filled it. */
  lemma OnceSteps(rule: Rule, buy: bool, taker: Ord, s: B.Picture)
    requires !rule.Simd?
    requires B.Sized(s) && Ready(taker, s.half) && taker.remaining > 0 && s.half.queue != []
    ensures var once := TradeOnce(rule, taker, s.half.queue); Quiet(s.half, once) && Traced(buy, s, once)
  {
    var h := s.half;
    var once := TradeOnce(rule, taker, h.queue);
    var q := once.fills[0].quantity;
    QuietMatch(h, once);
    assert AddFills(h.since, once.fills) == AddTo(h.since, h.queue[0].price, q) by {
      assert once.fills[..0] == [];
    }
    if once.gone == [] {
      assert FillSteps(once.fills, 0) == [B.TradeFront(q)];
      Single(buy, s, B.TradeFront(q));
      assert FrontOnly(buy, s, [B.TradeFront(q)]) by { assert [B.TradeFront(q)][1..] == []; }
    } else {
      assert FillSteps(once.fills, 1) == [B.TradeFront(q), B.Leave(h.queue[0].id)];
      TradeAndLeave(buy, s, q);
    }
  }

  /** The front order is filled and leaves. */
  lemma TradeAndLeave(buy: bool, s: B.Picture, q: int)
    requires B.Sized(s) && Levelled(s.half) && Distinct(s.half.queue)
    requires s.half.queue != [] && 0 < q == s.half.queue[0].remaining
    ensures var steps := [B.TradeFront(q), B.Leave(s.half.queue[0].id)]; var p := s.half.queue[0].price;
      && B.Runs(buy, s, steps)
      && B.After(buy, s, steps).half == Half(s.half.queue[1..], s.half.totals, AddTo(s.half.since, p, q))
      && FrontOnly(buy, s, steps)
  {
    var h, m := s.half, s.half.queue[0].id;
    var s1 := B.Next(buy, s, B.TradeFront(q));
    OnlyFront(s1.half.queue);
    FrontLeaves(s1.half);
    Single(buy, s1, B.Leave(m));
    assert [B.TradeFront(q), B.Leave(m)][1..] == [B.Leave(m)];
    assert FrontOnly(buy, s1, [B.Leave(m)]) by { assert [B.Leave(m)][1..] == []; }
  }

  lemma Single(buy: bool, s: B.Picture, a: B.Step)
    requires B.Sized(s) && B.Possible(s.half, a)
    ensures B.Runs(buy, s, [a]) && B.After(buy, s, [a]) == B.Next(buy, s, a)
  {
    assert [a][1..] == [];
  }

  /** Looking for the front order's id finds the front order. */
  lemma OnlyFront(q: seq<Ord>)
    requires q != [] && Distinct(q)
    ensures HasId(q, q[0].id) && IndexOf(q, q[0].id) == 0
  {
    assert q[IndexOf(q, q[0].id)].id == q[0].id;
  }

  /** An order with nothing remaining leaves its level as it is. */
  lemma FrontLeaves(h: Half)
    requires h.queue != [] && h.queue[0].remaining == 0 && h.queue[0].price in h.totals
      && h.totals[h.queue[0].price] > 0
    requires h.since.Keys == h.totals.Keys
    ensures WithoutOrder(h, 0) == h.(queue := h.queue[1..])
  {
  }

  lemma FillStepsThen(once: Outcome, rest: Outcome)
    requires |once.fills| == 1 && |once.gone| <= 1 && |rest.gone| <= |rest.fills|
    requires once.gone == [] ==> rest.gone == []
    ensures FillSteps(Then(once, rest).fills, |Then(once, rest).gone|)
         == FillSteps(once.fills, |once.gone|) + FillSteps(rest.fills, |rest.gone|)
  {
    var f := once.fills + rest.fills;
    assert f[0] == once.fills[0] && f[1..] == rest.fills && once.fills[1..] == [];
  }

  /** The loop, as steps of the side it trades with: only the first order ever leaves. */
  ghost predicate Traced(buy: bool, s: B.Picture, out: Outcome)
    requires B.Sized(s)
  {
    var steps := FillSteps(out.fills, |out.gone|);
    && B.Runs(buy, s, steps) && B.After(buy, s, steps).half == AfterMatch(s.half, out)
    && FrontOnly(buy, s, steps)
  }

  ghost predicate Ready(taker: Ord, h: Half) {
    Levelled(h) && Live(h.queue) && Distinct(h.queue) && taker.remaining >= 0
  }

  lemma {:induction false} MatchSteps(rule: Rule, buy: bool, taker: Ord, s: B.Picture, fuel: nat)
    requires !rule.Simd?
    requires B.Sized(s) && Ready(taker, s.half)
    ensures Traced(buy, s, Match(rule, taker, s.half.queue, fuel))
    decreases fuel
  {
    if Stops(rule, taker, s.half.queue, fuel) {
      QuietMatch(s.half, Match(rule, taker, s.half.queue, fuel));
    } else {
      var once, all := TradeOnce(rule, taker, s.half.queue), Match(rule, taker, s.half.queue, fuel);
      OnceSteps(rule, buy, taker, s);
      if OneShot(rule, taker) {
        assert all == once;
      } else {
        var s1 := B.After(buy, s, FillSteps(once.fills, |once.gone|));
        OnceKeeps(rule, taker, s.half);
        MatchSteps(rule, buy, once.taker, s1, fuel - 1);
        StepsThen(rule, buy, taker, s, s1, fuel - 1);
        assert all == Then(once, Match(rule, once.taker, once.book, fuel - 1));
      }
    }
  }

  lemma RestQuiet(rule: Rule, taker: Ord, h: Half, fuel: nat)
    requires !rule.Simd?
    requires Ready(taker, h) && taker.remaining > 0 && h.queue != []
    ensures var once := TradeOnce(rule, taker, h.queue); Quiet(h, Match(rule, once.taker, once.book, fuel))
  {
    var once := TradeOnce(rule, taker, h.queue);
    OnceKeeps(rule, taker, h);
    QuietMatch(h, once);
    QuietGreedy(rule, once.taker, AfterMatch(h, once), fuel);
  }

  /** The steps of a trade and then those of the rest. */
  lemma StepsThen(rule: Rule, buy: bool, taker: Ord, s: B.Picture, s1: B.Picture, fuel: nat)
    requires !rule.Simd?
    requires B.Sized(s) && Ready(taker, s.half) && taker.remaining > 0 && s.half.queue != []
    requires var once := TradeOnce(rule, taker, s.half.queue);
      && Traced(buy, s, once) && s1 == B.After(buy, s, FillSteps(once.fills, |once.gone|))
      && Traced(buy, s1, Match(rule, once.taker, once.book, fuel))
    ensures var once := TradeOnce(rule, taker, s.half.queue);
      Traced(buy, s, Then(once, Match(rule, once.taker, once.book, fuel)))
  {
    var once := TradeOnce(rule, taker, s.half.queue);
    var rest := Match(rule, once.taker, once.book, fuel);
    RestQuiet(rule, taker, s.half, fuel);
    RestGone(rule, taker, s.half.queue, fuel);
    assert Quiet(s.half, once);
    QuietThen(s.half, once, rest);
    FillStepsThen(once, rest);
    TracedThen(buy, s, s1, once, rest);
  }

  lemma TracedThen(buy: bool, s: B.Picture, s1: B.Picture, once: Outcome, rest: Outcome)
    requires B.Sized(s) && Traced(buy, s, once) && s1 == B.After(buy, s, FillSteps(once.fills, |once.gone|))
    requires Traced(buy, s1, rest)
    requires FillSteps(Then(once, rest).fills, |Then(once, rest).gone|)
          == FillSteps(once.fills, |once.gone|) + FillSteps(rest.fills, |rest.gone|)
    requires AfterMatch(s.half, Then(once, rest)) == AfterMatch(AfterMatch(s.half, once), rest)
    ensures Traced(buy, s, Then(once, rest))
  {
    B.AfterConcat(buy, s, FillSteps(once.fills, |once.gone|), FillSteps(rest.fills, |rest.gone|));
    FrontOnlyConcat(buy, s, FillSteps(once.fills, |once.gone|), FillSteps(rest.fills, |rest.gone|));
  }

  /** The side after one trade. */
  lemma OnceKeeps(rule: Rule, taker: Ord, h: Half)
    requires !rule.Simd?
    requires Ready(taker, h) && taker.remaining > 0 && h.queue != []
    ensures var once := TradeOnce(rule, taker, h.queue); var h' := AfterMatch(h, once);
      Ready(once.taker, h') && h'.queue == once.book
  {
    var once := TradeOnce(rule, taker, h.queue);
    assert Quiet(h, once);
    QuietMatch(h, once);
  }

  /** A trade that leaves its maker in the book leaves the taker with nothing. */
  lemma RestGone(rule: Rule, taker: Ord, q: seq<Ord>, fuel: nat)
    requires !rule.Simd?
    requires Live(q) && taker.remaining > 0 && q != []
    ensures var once := TradeOnce(rule, taker, q); var rest := Match(rule, once.taker, once.book, fuel);
      |rest.gone| <= |rest.fills| && (once.gone == [] ==> rest.gone == [])
  {
    var once := TradeOnce(rule, taker, q);
    MatchIsGreedy(rule, once.taker, once.book, fuel);
  }

  // ---- Operations as steps ------------------------------------------------------------------

  function EntrySteps(o: Ord): seq<B.Step> { if Rests(o) then [B.Enter(o)] else [] }

  /** Where the engine finds the order `id`. */
  function FoundOn(s: State, id: nat): Side { if HasId(s.bids.queue, id) then Buy else Sell }

  function CancelSteps(s: State, id: nat, user: nat, side: Side): seq<B.Step> {
    var q := s.Side(side).queue;
    if id in s.owned && side == FoundOn(s, id) && HasId(q, id) && Cancellable(q[IndexOf(q, id)], user) then
      [B.Leave(id)]
    else []
  }

  function CancelEachSteps(s: State, ids: seq<nat>, user: nat, side: Side): seq<B.Step> {
    if ids == [] then []
    else
      var n := |ids| - 1;
      CancelEachSteps(s, ids[..n], user, side) + CancelSteps(CancelEach(s, ids[..n], user), ids[n], user, side)
  }

  /** What an operation of the engine does to one side of its book. */
  function StepsOf(w: World, s: State, op: Op, side: Side): seq<B.Step> {
    match op
    case Place(o) =>
      if !Acceptable(w, o) then []
      else if side == o.side then EntrySteps(TakerAfter(w, s, o))
      else FillSteps(MatchOf(w, s, o).fills, |MatchOf(w, s, o).gone|)
    case CancelOne(id, user) => CancelSteps(s, id, user, side)
    case CancelUser(user) => if user in s.users then CancelEachSteps(s, s.users[user], user, side) else []
  }

  function StepsOfRun(w: World, ops: seq<Op>, side: Side): seq<B.Step> {
    if ops == [] then []
    else
      var n := |ops| - 1;
      StepsOfRun(w, ops[..n], side) + StepsOf(w, Run(w, ops[..n]), ops[n], side)
  }

  /** The steps take the side from `t` to the queue `h`. */
  ghost predicate Leads(side: Side, t: B.Picture, steps: seq<B.Step>, h: Half)
    requires B.Sized(t)
  {
    B.Runs(side.Buy?, t, steps) && B.After(side.Buy?, t, steps).half == h
  }

  lemma LeadsOn(side: Side, t: B.Picture, a: seq<B.Step>, b: seq<B.Step>, h: Half)
    requires B.Sized(t) && B.Runs(side.Buy?, t, a) && Leads(side, B.After(side.Buy?, t, a), b, h)
    ensures Leads(side, t, a + b, h)
  {
    B.AfterConcat(side.Buy?, t, a, b);
  }

  lemma SideReady(w: World, s: State, side: Side, taker: Ord)
    requires Holding(w, s) && taker.remaining >= 0
    ensures Ready(taker, s.Side(side))
  {
    var h := s.Side(side);
    assert QueueSound(h.queue, side, s.sequence, w.clock(s.tick)) && LevelLaw(h);
    assert forall p :: p in h.totals ==> TotalAt(h, p);
    assert h.since.Keys == h.totals.Keys by { assert forall p :: p in h.since.Keys <==> p in h.totals.Keys; }
  }

  /** The side an order trades with. */
  lemma OtherSide(w: World, s: State, o: Ord)
    requires TakerAfter(w, s, o).side == o.side
    ensures Process(w, s, o).Side(o.side.Opposite())
         == if Acceptable(w, o) then AfterMatch(s.Side(o.side.Opposite()), MatchOf(w, s, o))
           else s.Side(o.side.Opposite())
  {
  }

  /** The side an order may join. */
  lemma OwnSideAfter(w: World, s: State, o: Ord)
    requires TakerAfter(w, s, o).side == o.side && TakerAfter(w, s, o).id == o.id && o.id !in s.owned
    ensures Process(w, s, o).Side(o.side)
         == if Acceptable(w, o) && Rests(TakerAfter(w, s, o))
           then WithOrder(o.side.Buy?, s.Side(o.side), TakerAfter(w, s, o))
           else s.Side(o.side)
  {
  }

  lemma JoinLeads(w: World, s: State, o: Ord, t: B.Picture)
    requires NeverBackwards(w) && Holding(w, s) && Fresh(o) && !Known(s, o.id) && Acceptable(w, o)
    requires B.Sized(t) && t.half == s.Side(o.side)
    ensures Leads(o.side, t, EntrySteps(TakerAfter(w, s, o)), Process(w, s, o).Side(o.side))
  {
    var taker := TakerAfter(w, s, o);
    TakerAccounted(w, s, o);
    OwnSideAfter(w, s, o);
    if Rests(taker) {
      SoundTaker(w, s, o);
      assert taker.quantity > 0;
      assert B.Possible(t.half, B.Enter(taker));
      Single(o.side.Buy?, t, B.Enter(taker));
    }
  }

  lemma PlaceLeads(w: World, s: State, o: Ord, side: Side, t: B.Picture)
    requires NeverBackwards(w) && Holding(w, s) && Fresh(o) && !Known(s, o.id)
    requires B.Sized(t) && t.half == s.Side(side)
    ensures Leads(side, t, StepsOf(w, s, Place(o), side), Process(w, s, o).Side(side))
  {
    if Acceptable(w, o) {
      if side == o.side {
        JoinLeads(w, s, o, t);
      } else {
        SideReady(w, s, side, Arrived(w, s, o));
        TakerAccounted(w, s, o);
        OtherSide(w, s, o);
        MatchSteps(Classic, side.Buy?, Arrived(w, s, o), t, MAX_ITERATIONS);
      }
    }
  }

  lemma CancelLeads(s: State, id: nat, user: nat, side: Side, t: B.Picture)
    requires B.Sized(t) && t.half == s.Side(side)
    ensures Leads(side, t, CancelSteps(s, id, user, side), Cancel(s, id, user).Side(side))
  {
    if CancelSteps(s, id, user, side) != [] { Single(side.Buy?, t, B.Leave(id)); }
  }

  lemma {:induction false} CancelEachLeads(s: State, ids: seq<nat>, user: nat, side: Side, t: B.Picture)
    requires B.Sized(t) && t.half == s.Side(side)
    ensures Leads(side, t, CancelEachSteps(s, ids, user, side), CancelEach(s, ids, user).Side(side))
  {
    if ids != [] {
      var n := |ids| - 1;
      var a := CancelEachSteps(s, ids[..n], user, side);
      CancelEachLeads(s, ids[..n], user, side, t);
      CancelLeads(CancelEach(s, ids[..n], user), ids[n], user, side, B.After(side.Buy?, t, a));
      LeadsOn(side, t, a, CancelSteps(CancelEach(s, ids[..n], user), ids[n], user, side),
        CancelEach(s, ids, user).Side(side));
    }
  }

  lemma StepLeads(w: World, s: State, op: Op, side: Side, t: B.Picture)
    requires NeverBackwards(w) && Holding(w, s) && B.Sized(t) && t.half == s.Side(side)
    requires op.Place? ==> Fresh(op.order) && !Known(s, op.order.id)
    ensures Leads(side, t, StepsOf(w, s, op, side), MarketRuns.Step(w, s, op).Side(side))
  {
    match op
    case Place(o) => PlaceLeads(w, s, o, side, t);
    case CancelOne(id, user) => CancelLeads(s, id, user, side, t);
    case CancelUser(user) => if user in s.users { CancelEachLeads(s, s.users[user], user, side, t); }
  }

  /** The steps of a whole run of the engine lead each side to the queue the run ends with. */
  lemma {:induction false} RunLeads(w: World, ops: seq<Op>, side: Side)
    requires NeverBackwards(w) && NewOrders(ops)
    ensures Leads(side, B.START, StepsOfRun(w, ops, side), Run(w, ops).Side(side))
  {
    if ops != [] {
      var n := |ops| - 1;
      var s, a := Run(w, ops[..n]), StepsOfRun(w, ops[..n], side);
      RunLeads(w, ops[..n], side);
      RunHolds(w, ops[..n]);
      StepLeads(w, s, ops[n], side, B.After(side.Buy?, B.START, a));
      LeadsOn(side, B.START, a, StepsOf(w, s, ops[n], side), Run(w, ops).Side(side));
    }
  }

  // ---- Whether the trees stand --------------------------------------------------------------

  /** No removal of the run rotates around the side's sentinel, and no trade finds the front of its queue a
      thousand steps down. */
  predicate Stands(w: World, ops: seq<Op>, side: Side)
    requires NeverBackwards(w) && NewOrders(ops)
  {
    Colouring(w, ops, side).Kept?
  }

  /** The colours of the side's tree and sentinel after the run, as far as they are known. */
  function Colouring(w: World, ops: seq<Op>, side: Side): Colours.Outcome
    requires NeverBackwards(w) && NewOrders(ops)
  {
    RunLeads(w, ops, side);
    B.After(side.Buy?, B.START, StepsOfRun(w, ops, side)).outcome
  }
}
