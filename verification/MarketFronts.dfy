/** Runs of the engine without cancellations: only filled makers leave, from the front, so the trees stand. */
module MarketFronts {
  import opened Orders
  import opened Matching
  import opened Market
  import opened MarketBook
  import opened MarketTotals
  import opened MarketRuns
  import opened MarketSteps
  import opened FrontRuns
  import B = BookRuns
  import RedBlack

  ghost predicate NoCancels(ops: seq<Op>) { forall i :: 0 <= i < |ops| ==> ops[i].Place? }

  lemma PlaceEntries(w: World, s: State, o: Ord, side: Side)
    ensures Entries(StepsOf(w, s, Place(o), side)) <= 1
  {
    FillNobody(MatchOf(w, s, o).fills, |MatchOf(w, s, o).gone|);
    NobodyCounts(FillSteps(MatchOf(w, s, o).fills, |MatchOf(w, s, o).gone|));
    assert Rests(TakerAfter(w, s, o)) ==> EntrySteps(TakerAfter(w, s, o))[1..] == [];
  }

  lemma PlaceFromFront(w: World, s: State, o: Ord, side: Side, t: B.Picture)
    requires NeverBackwards(w) && Holding(w, s) && Fresh(o) && !Known(s, o.id)
    requires B.Sized(t) && t.half == s.Side(side)
    requires B.Runs(side.Buy?, t, StepsOf(w, s, Place(o), side))
    ensures FrontOnly(side.Buy?, t, StepsOf(w, s, Place(o), side))
  {
    if Acceptable(w, o) && side != o.side {
      SideReady(w, s, side, Arrived(w, s, o));
      MatchSteps(Classic, side.Buy?, Arrived(w, s, o), t, MAX_ITERATIONS);
    } else {
      var a := StepsOf(w, s, Place(o), side);
      assert a != [] ==> a[1..] == [];
    }
  }

  lemma {:induction false} RunFromFront(w: World, ops: seq<Op>, side: Side)
    requires NeverBackwards(w) && NewOrders(ops) && NoCancels(ops)
    ensures Leads(side, B.START, StepsOfRun(w, ops, side), Run(w, ops).Side(side))
    ensures FrontOnly(side.Buy?, B.START, StepsOfRun(w, ops, side)) && Entries(StepsOfRun(w, ops, side)) <= |ops|
  {
    RunLeads(w, ops, side);
    if ops != [] {
      var n := |ops| - 1;
      RunFromFront(w, ops[..n], side);
      FromFrontOn(w, ops[..n], Run(w, ops[..n]), ops[n].order, side, StepsOfRun(w, ops[..n], side));
    }
  }

  lemma FromFrontOn(w: World, pre: seq<Op>, s: State, o: Ord, side: Side, a: seq<B.Step>)
    requires NeverBackwards(w) && NewOrders(pre) && s == Run(w, pre) && Fresh(o) && !PlacedIn(pre, o.id)
    requires Leads(side, B.START, a, s.Side(side)) && FrontOnly(side.Buy?, B.START, a)
    ensures var b := a + StepsOf(w, s, Place(o), side);
      && B.Runs(side.Buy?, B.START, b) && FrontOnly(side.Buy?, B.START, b) && Entries(b) <= Entries(a) + 1
  {
    var t, b := B.After(side.Buy?, B.START, a), StepsOf(w, s, Place(o), side);
    RunHolds(w, pre);
    StepLeads(w, s, Place(o), side, t);
    PlaceFromFront(w, s, o, side, t);
    FrontOnlyConcat(side.Buy?, B.START, a, b);
    EntriesConcat(a, b);
    PlaceEntries(w, s, o, side);
  }

  /** Whatever the orders and the clock: below 2^500 orders and without cancellations both trees stand. */
  lemma PlacementsStand(w: World, ops: seq<Op>, side: Side)
    requires NeverBackwards(w) && NewOrders(ops) && NoCancels(ops) && |ops| + 1 < RedBlack.Pow2(500)
    ensures Stands(w, ops, side)
  {
    RunFromFront(w, ops, side);
    StartUpright();
    FrontOnlyStands(side.Buy?, B.START, StepsOfRun(w, ops, side));
  }
}
