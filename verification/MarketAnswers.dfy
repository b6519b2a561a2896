/** What the classic engine does with an order or a cancellation, told by ids, users, prices and statuses alone. */
module MarketAnswers {
  import opened Orders
  import opened Matching
  import opened Priority
  import opened Market
  import opened MarketBook
  import opened MarketIndex

  // ---- Placing ------------------------------------------------------------------------------

  /** An order of another instrument, without a positive quantity, or a LIMIT order without a positive price changes
      nothing; any other is numbered. */
  lemma AcceptsExactly(w: World, s: State, o: Ord)
    ensures var refused := o.instrument != w.instrument || o.quantity <= 0 || (o.typ.Limit? && o.price <= 0);
      && (refused ==> Process(w, s, o) == s)
      && (!refused ==> Process(w, s, o).sequence == s.sequence + 1 + |MatchOf(w, s, o).fills|)
  {
  }

  /** An accepted order matches as it came, with the next number and the time. */
  lemma ArrivesAs(w: World, s: State, o: Ord)
    ensures var a := Arrived(w, s, o);
      && a.sequence == s.sequence + 1 && a.timestamp == w.clock(s.tick)
      && a.(sequence := o.sequence, timestamp := o.timestamp) == o
  {
  }

  /** A LIMIT order that has something left after its match is in its queue, once, and in the indexes; one that has
      nothing left, or is of another type, is not in the book. */
  lemma RestsExactly(w: World, s: State, o: Ord)
    requires BookSound(w, s) && IndexAgrees(s) && Fresh(o) && o.quantity > 0 && o.id !in s.owned
    requires o.instrument == w.instrument && (o.typ.Limit? ==> o.price > 0)
    ensures var s', left := Process(w, s, o), MatchOf(w, s, o).taker.remaining;
      && (o.typ.Limit? && left > 0 <==> HasId(s'.Side(o.side).queue, o.id))
      && (o.typ.Limit? && left > 0 <==> o.id in s'.owned)
  {
    var side := o.side;
    var t := TakerAfter(w, s, o);
    MatchKeepsTerms(Classic, Arrived(w, s, o), s.Side(side.Opposite()).queue, MAX_ITERATIONS);
    if o.typ.Limit? { MatchKeepsStatus(Classic, Arrived(w, s, o), s.Side(side.Opposite()).queue, MAX_ITERATIONS); }
    assert Matched(w, s, o).Side(side) == s.Side(side) && o.id !in Matched(w, s, o).owned;
    if Rests(t) {
      JoinedHas(s.Side(side), t);
    }
  }

  lemma JoinedHas(h: Half, o: Ord)
    ensures forall buy :: HasId(WithOrder(buy, h, o).queue, o.id)
  {
    forall buy ensures HasId(WithOrder(buy, h, o).queue, o.id) {
      var n := Position(buy, OrdKeys(h.queue), Key(o.price, o.timestamp));
      assert WithOrder(buy, h, o).queue[n] == o;
    }
  }

  /** An order whose id the engine owns already joins its queue if the id is not there, and the indexes do not learn of
      it. */
  lemma KnownIdJoins(s: State, o: Ord)
    requires o.status.Pending? || o.status.PartialFilled?
    requires o.typ.Limit? && o.remaining > 0 && o.id in s.owned
    ensures var s' := Placed(s, o);
      && s'.owned == s.owned && s'.users == s.users && HasId(s'.Side(o.side).queue, o.id)
      && |s'.Side(o.side).queue| == |s.Side(o.side).queue| + if HasId(s.Side(o.side).queue, o.id) then 0 else 1
  {
    JoinedHas(s.Side(o.side), o);
  }

  lemma {:induction false} StripOther(a: seq<nat>, id: nat)
    requires id !in a
    ensures Strip(a, id) == a
  {
    if a != [] { StripOther(a[..|a| - 1], id); }
  }

  lemma {:induction false} StripFrom(a: seq<nat>, id: nat, b: seq<nat>)
    requires id !in b
    ensures Strip(a + b, id) == Strip(a, id) + b
    decreases |b|
  {
    var n := |b| - 1;
    if b == [] {
      assert a + b == a;
    } else {
      assert (a + b)[..|a + b| - 1] == a + b[..n];
      StripFrom(a, id, b[..n]);
      assert Strip(a, id) + b[..n] + [b[n]] == Strip(a, id) + b;
    }
  }

  lemma {:induction false} StripTells(a: seq<nat>, id: nat, b: seq<nat>)
    requires id !in a && id !in b
    ensures Strip(a + [id] + b, id) == a + b
  {
    StripOther(a, id);
    assert (a + [id])[..|a|] == a;
    StripFrom(a + [id], id, b);
  }

  /** A user's list is in the order the orders came to rest: a newcomer goes to its end, a leaver to nobody's place. */
  lemma ListsTell(users: map<nat, seq<nat>>, user: nat, a: seq<nat>, id: nat, b: seq<nat>)
    requires id !in a && id !in b
    ensures user !in users ==> AddId(users, user, id) == users[user := [id]]
    ensures user in users && users[user] == a ==> AddId(users, user, id) == users[user := a + [id]]
    ensures user in users && users[user] == a + [id] + b ==>
      DropId(users, user, id) == if a + b == [] then users - {user} else users[user := a + b]
  {
    StripTells(a, id, b);
    assert [] + [id] == [id];
  }

  // ---- Cancelling ---------------------------------------------------------------------------

  /** A cancellation changes nothing if whoever rests under the id belongs to another user or is not active, and so
      if nobody does. */
  lemma CancelRefused(s: State, id: nat, user: nat)
    requires forall side: Side, i :: 0 <= i < |s.Side(side).queue| && s.Side(side).queue[i].id == id ==>
      var o := s.Side(side).queue[i];
      o.user != user || !(o.status.Pending? || o.status.PartialFilled?)
    ensures Cancel(s, id, user) == s
  {
    if HasId(s.bids.queue, id) {
      assert s.Side(Buy).queue[IndexOf(s.bids.queue, id)].id == id;
    } else if HasId(s.asks.queue, id) {
      assert s.Side(Sell).queue[IndexOf(s.asks.queue, id)].id == id;
    }
  }

  /** An active resting order of the user leaves its queue, the order map and the engine as cancelled, and only it. */
  lemma CancelTaken(s: State, user: nat, side: Side, i: nat)
    requires IndexAgrees(s) && i < |s.Side(side).queue| && s.Side(side).queue[i].user == user
    requires s.Side(side).queue[i].status.Pending? || s.Side(side).queue[i].status.PartialFilled?
    ensures var q := s.Side(side).queue; var s' := Cancel(s, q[i].id, user);
      && s'.Side(side).queue == q[..i] + q[i + 1..] && s'.Side(side.Opposite()) == s.Side(side.Opposite())
      && s'.owned == s.owned - {q[i].id} && s'.done == s.done + [q[i].(status := Cancelled)]
      && s'.tape == s.tape && s'.count == s.count && s'.volume == s.volume && s'.sequence == s.sequence
  {
    var q, id := s.Side(side).queue, s.Side(side).queue[i].id;
    assert HasId(q, id) && IndexOf(q, id) == i;
    if side.Sell? { assert !HasId(s.bids.queue, id); }
  }

  lemma {:induction false} OthersKept(q: seq<Ord>, i: nat)
    requires i < |q|
    ensures NotOf(q[..i] + q[i + 1..], q[i].user) == NotOf(q, q[i].user)
    decreases |q|
  {
    var n, r := |q| - 1, q[..i] + q[i + 1..];
    if i == n {
      assert r == q[..n];
    } else {
      assert r[..|r| - 1] == q[..n][..i] + q[..n][i + 1..] && r[|r| - 1] == q[n];
      OthersKept(q[..n], i);
    }
  }

  predicate Takes(o: Ord, id: nat, user: nat) {
    o.id == id && o.user == user && (o.status.Pending? || o.status.PartialFilled?)
  }

  /** Whatever is cancelled, everyone else's orders stay, in their order. */
  lemma CancelSpares(s: State, id: nat, user: nat)
    requires IndexAgrees(s)
    ensures var s' := Cancel(s, id, user);
      NotOf(s'.bids.queue, user) == NotOf(s.bids.queue, user) && NotOf(s'.asks.queue, user) == NotOf(s.asks.queue, user)
  {
    if side: Side, i :| 0 <= i < |s.Side(side).queue| && Takes(s.Side(side).queue[i], id, user) {
      CancelTaken(s, user, side, i);
      OthersKept(s.Side(side).queue, i);
    } else {
      CancelRefused(s, id, user);
    }
  }
}
