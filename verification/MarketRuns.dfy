/** Whole runs of the engine: what holds after any sequence of placements and cancellations. */
module MarketRuns {
  import opened Orders
  import opened Matching
  import opened Market
  import opened MarketBook
  import opened MarketIndex
  import opened MarketTotals
  import opened MarketLevels

  datatype Op = Place(order: Ord) | CancelOne(id: nat, user: nat) | CancelUser(user: nat)

  function Step(w: World, s: State, op: Op): State {
    match op
    case Place(o) => Process(w, s, o)
    case CancelOne(id, user) => Cancel(s, id, user)
    case CancelUser(user) => CancelAll(s, user)
  }

  function Run(w: World, ops: seq<Op>): State {
    if ops == [] then EMPTY else Step(w, Run(w, ops[..|ops| - 1]), ops[|ops| - 1])
  }

  /** New orders, each with an id of its own. */
  ghost predicate NewOrders(ops: seq<Op>) {
    && (forall i :: 0 <= i < |ops| && ops[i].Place? ==> Fresh(ops[i].order))
    && (forall i, j :: 0 <= i < j < |ops| && ops[i].Place? && ops[j].Place? ==> ops[i].order.id != ops[j].order.id)
  }

  /** No LIMIT order of the run was cut short. */
  ghost predicate NeverCutShort(w: World, ops: seq<Op>) {
    forall i :: 0 <= i < |ops| && ops[i].Place? ==> !Crosses(w, Run(w, ops[..i]), ops[i].order)
  }

  /** The order is an acceptable LIMIT order with more in reach than the loop may trade with. */
  ghost predicate Crosses(w: World, s: State, o: Ord) { Acceptable(w, o) && o.typ.Limit? && CutShort(w, s, o) }

  ghost predicate Holding(w: World, s: State) {
    BookSound(w, s) && IndexAgrees(s) && Ledger(s) && Levels(s)
  }

  ghost predicate PlacedIn(ops: seq<Op>, id: nat) {
    exists i :: 0 <= i < |ops| && ops[i].Place? && ops[i].order.id == id
  }

  lemma StepHolds(w: World, s: State, op: Op)
    requires NeverBackwards(w) && Holding(w, s)
    requires op.Place? ==> Fresh(op.order) && !Known(s, op.order.id)
    ensures Holding(w, Step(w, s, op))
    ensures forall id :: Known(Step(w, s, op), id) ==> Known(s, id) || (op.Place? && op.order.id == id)
  {
    match op
    case Place(o) =>
      ProcessKeepsSound(w, s, o);
      ProcessKeepsIndex(w, s, o);
      ProcessKeepsLedger(w, s, o);
      ProcessKeepsLevels(w, s, o);
    case CancelOne(id, user) =>
      CancelKeeps(w, s, id, user);
      CancelKeepsIndex(s, id, user);
      CancelKeepsLedger(s, id, user);
      CancelKeepsLevels(w, s, id, user);
    case CancelUser(user) =>
      if user in s.users {
        CancelEachKeeps(w, s, s.users[user], user);
        CancelEachKeepsIndex(s, s.users[user], user);
        CancelEachKeepsLedger(s, s.users[user], user);
        CancelEachKeepsLevels(w, s, s.users[user], user);
      }
  }

  lemma StartHolds(w: World, s: State)
    requires s.bids == Half([], map[], map[]) && s.asks == Half([], map[], map[]) && s.owned == {} && s.users == map[]
    requires s.done == [] && s.tape == [] && s.count == 0 && s.volume == 0
    ensures Holding(w, s) && forall id :: !Known(s, id)
  {
    NothingSound(Buy, s.sequence, w.clock(s.tick));
    NothingSound(Sell, s.sequence, w.clock(s.tick));
    NothingIndexed(s);
    NothingTraded(s);
    NoLevels(s.bids);
  }

  lemma NoLevels(h: Half)
    requires h == Half([], map[], map[])
    ensures LevelLaw(h)
  {
  }

  lemma NothingSound(side: Side, n: nat, now: int)
    ensures QueueSound([], side, n, now)
  {
  }

  lemma NothingIndexed(s: State)
    requires s.bids.queue == [] && s.asks.queue == [] && s.owned == {} && s.users == map[]
    ensures IndexAgrees(s)
  {
  }

  lemma NothingTraded(s: State)
    requires s.bids.queue == [] && s.asks.queue == [] && s.done == [] && s.tape == [] && s.count == 0 && s.volume == 0
    ensures Ledger(s) && forall id :: !Known(s, id)
  {
  }

  /** After any run of new orders and cancellations: both queues are in priority order and hold only
      live LIMIT orders, the indexes agree with the book, the ledger balances and the levels obey their law. */
  lemma {:induction false} RunHolds(w: World, ops: seq<Op>)
    requires NeverBackwards(w) && NewOrders(ops)
    ensures Holding(w, Run(w, ops))
    ensures forall id :: Known(Run(w, ops), id) ==> PlacedIn(ops, id)
  {
    if ops == [] {
      StartHolds(w, EMPTY);
    } else {
      var init, op := ops[..|ops| - 1], ops[|ops| - 1];
      RunHolds(w, init);
      assert forall id :: PlacedIn(init, id) ==> PlacedIn(ops, id) by {
        assert forall i :: 0 <= i < |init| ==> init[i] == ops[i];
      }
      StepHolds(w, Run(w, init), op);
    }
  }

  /** The book is never crossed in a run whose orders were all matched to the end. */
  lemma {:induction false} RunUncrossed(w: World, ops: seq<Op>)
    requires NeverBackwards(w) && NewOrders(ops) && NeverCutShort(w, ops)
    ensures Uncrossed(Run(w, ops))
  {
    if ops != [] {
      var init, op := ops[..|ops| - 1], ops[|ops| - 1];
      assert forall i :: 0 <= i < |init| ==> init[i] == ops[i] && init[..i] == ops[..i];
      RunUncrossed(w, init);
      RunHolds(w, init);
      match op
      case Place(o) =>
        assert !Known(Run(w, init), o.id);
        ProcessUncrossed(w, Run(w, init), o);
      case CancelOne(id, user) =>
        CancelKeeps(w, Run(w, init), id, user);
      case CancelUser(user) =>
        var s := Run(w, init);
        if user in s.users { CancelEachKeeps(w, s, s.users[user], user); }
    }
  }

  /** Whether the book was ever crossed: exactly when some order was cut short. */
  lemma AlwaysUncrossed(w: World, ops: seq<Op>)
    requires NeverBackwards(w) && NewOrders(ops)
    ensures (forall k :: 0 <= k <= |ops| ==> Uncrossed(Run(w, ops[..k]))) <==> NeverCutShort(w, ops)
  {
    if NeverCutShort(w, ops) {
      forall k | 0 <= k <= |ops| ensures Uncrossed(Run(w, ops[..k])) {
        assert forall i :: 0 <= i < k ==> ops[..k][i] == ops[i] && ops[..k][..i] == ops[..i];
        RunUncrossed(w, ops[..k]);
      }
    } else {
      var i :| 0 <= i < |ops| && ops[i].Place? && Crosses(w, Run(w, ops[..i]), ops[i].order);
      CrossedAfter(w, ops, i);
    }
  }

  lemma CrossedAfter(w: World, ops: seq<Op>, i: nat)
    requires NeverBackwards(w) && NewOrders(ops) && i < |ops| && ops[i].Place?
    requires Crosses(w, Run(w, ops[..i]), ops[i].order)
    ensures !Uncrossed(Run(w, ops[..i])) || !Uncrossed(Run(w, ops[..i + 1]))
  {
    var s := Run(w, ops[..i]);
    NotPlacedYet(ops, i);
    RunHolds(w, ops[..i]);
    assert ops[..i + 1] == ops[..i] + [ops[i]];
    RunMore(w, ops[..i], ops[i]);
    if Uncrossed(s) { ProcessUncrossed(w, s, ops[i].order); }
  }

  lemma NotPlacedYet(ops: seq<Op>, i: nat)
    requires NewOrders(ops) && i < |ops| && ops[i].Place?
    ensures NewOrders(ops[..i]) && Fresh(ops[i].order) && !PlacedIn(ops[..i], ops[i].order.id)
  {
  }

  lemma RunMore(w: World, ops: seq<Op>, op: Op)
    ensures Run(w, ops + [op]) == Step(w, Run(w, ops), op)
  {
    assert (ops + [op])[..|ops|] == ops;
  }

  /** How many orders rest on both sides. */
  function RestCount(s: State): nat { |s.bids.queue| + |s.asks.queue| }

  lemma PlaceAdds(w: World, s: State, o: Ord)
    requires BookSound(w, s) && Fresh(o)
    ensures RestCount(Process(w, s, o)) <= RestCount(s) + 1
  {
    if Acceptable(w, o) {
      MatchShrinks(w, s, o);
      PlacedAdds(Matched(w, s, o), TakerAfter(w, s, o));
    }
  }

  lemma MatchShrinks(w: World, s: State, o: Ord)
    requires BookSound(w, s) && o.remaining >= 0
    ensures RestCount(Matched(w, s, o)) <= RestCount(s)
  {
    MatchParts(w, s, o);
  }

  lemma PlacedAdds(s: State, o: Ord)
    ensures RestCount(Placed(s, o)) <= RestCount(s) + 1
  {
  }

  lemma CancelShrinks(s: State, id: nat, user: nat)
    ensures RestCount(Cancel(s, id, user)) <= RestCount(s)
  {
  }

  lemma {:induction false} CancelEachShrinks(s: State, ids: seq<nat>, user: nat)
    ensures RestCount(CancelEach(s, ids, user)) <= RestCount(s)
  {
    if ids != [] {
      CancelEachShrinks(s, ids[..|ids| - 1], user);
      CancelShrinks(CancelEach(s, ids[..|ids| - 1], user), ids[|ids| - 1], user);
    }
  }

  lemma {:induction false} FewRest(w: World, ops: seq<Op>)
    requires NeverBackwards(w) && NewOrders(ops)
    ensures RestCount(Run(w, ops)) <= |ops|
  {
    if ops != [] {
      var init, op := ops[..|ops| - 1], ops[|ops| - 1];
      FewRest(w, init);
      RunHolds(w, init);
      var s := Run(w, init);
      match op
      case Place(o) => PlaceAdds(w, s, o);
      case CancelOne(id, user) => CancelShrinks(s, id, user);
      case CancelUser(user) => if user in s.users { CancelEachShrinks(s, s.users[user], user); }
    }
  }

  /** Up to 10001 operations never cut an order short. */
  lemma ShortRunsComplete(w: World, ops: seq<Op>)
    requires NeverBackwards(w) && NewOrders(ops) && |ops| <= 10001
    ensures NeverCutShort(w, ops)
  {
    forall i | 0 <= i < |ops| && ops[i].Place? ensures !Crosses(w, Run(w, ops[..i]), ops[i].order) {
      FewRest(w, ops[..i]);
    }
  }

  lemma TradeRecords(w: World, taker: Ord, f: seq<Fill>, n: nat, k: nat, i: nat)
    requires i < |f| && f[i].maker.sequence < taker.sequence && f[i].maker.side == taker.side.Opposite()
    ensures Records(TradesOf(w, taker, f, n, k)[i], taker, f[i].maker, f[i].quantity, w.instrument,
                    n + 1 + i, w.clock(k + i))
  {
  }

  /** The trades of one order are with the orders at the front of the queue, one after the other, and
      carry consecutive sequence numbers. */
  lemma TradesTell(w: World, taker: Ord, q: seq<Ord>, n: nat, now: int, k: nat, i: nat)
    requires QueueSound(q, taker.side.Opposite(), n, now) && n < taker.sequence && taker.remaining >= 0
    requires i < |Match(Classic, taker, q, MAX_ITERATIONS).fills|
    ensures var f := Match(Classic, taker, q, MAX_ITERATIONS).fills;
      i < |q| && 0 < f[i].quantity <= q[i].remaining
      && Records(TradesOf(w, taker, f, taker.sequence, k)[i], taker, q[i], f[i].quantity, w.instrument,
                 taker.sequence + 1 + i, w.clock(k + i))
  {
    var f := Match(Classic, taker, q, MAX_ITERATIONS).fills;
    FillFromFront(Classic, taker, q, MAX_ITERATIONS, i);
    assert Sound(q[i], taker.side.Opposite(), n, now);
    TradeRecords(w, taker, f, taker.sequence, k, i);
  }
}
