/** The engine's order map and its per-user lists describe the same orders as the book. */
module MarketIndex {
  import opened Orders
  import opened Priority
  import opened PriceLevels
  import opened Matching
  import opened Market
  import opened MarketBook

  ghost predicate Distinct(q: seq<Ord>) {
    forall i, j :: 0 <= i < j < |q| ==> q[i].id != q[j].id
  }

  ghost predicate Apart(a: seq<Ord>, b: seq<Ord>) {
    forall i, j :: 0 <= i < |a| && 0 <= j < |b| ==> a[i].id != b[j].id
  }

  ghost predicate NoRepeats(s: seq<nat>) {
    forall i, j :: 0 <= i < j < |s| ==> s[i] != s[j]
  }

  /** `user` has an order `id` in the queue. */
  ghost predicate Holds(q: seq<Ord>, user: nat, id: nat) {
    exists i :: 0 <= i < |q| && q[i].id == id && q[i].user == user
  }

  ghost predicate Resident(s: State, user: nat, id: nat) {
    Holds(s.bids.queue, user, id) || Holds(s.asks.queue, user, id)
  }

  ghost predicate Listed(users: map<nat, seq<nat>>, user: nat, id: nat) {
    user in users && id in users[user]
  }

  ghost predicate ListsClean(users: map<nat, seq<nat>>) {
    forall u :: u in users ==> users[u] != [] && NoRepeats(users[u])
  }

  /** Order map, user lists and book hold the same orders, each once; no user has an empty list. */
  ghost predicate IndexAgrees(s: State) {
    && Distinct(s.bids.queue) && Distinct(s.asks.queue) && Apart(s.bids.queue, s.asks.queue)
    && (forall id :: id in s.owned <==> HasId(s.bids.queue, id) || HasId(s.asks.queue, id))
    && ListsClean(s.users)
    && (forall u, id :: Listed(s.users, u, id) <==> Resident(s, u, id))
  }

  // ---- User lists -------------------------------------------------------------------------

  lemma {:induction false} StripExact(s: seq<nat>, id: nat)
    ensures forall x :: x in Strip(s, id) <==> x in s && x != id
    ensures NoRepeats(s) ==> NoRepeats(Strip(s, id))
  {
    if s != [] {
      var init := s[..|s| - 1];
      StripExact(init, id);
      var last := s[|s| - 1];
      assert s == init + [last];
      assert NoRepeats(s) ==> NoRepeats(init) && last !in init;
    }
  }

  lemma AddIdExact(users: map<nat, seq<nat>>, user: nat, id: nat)
    requires ListsClean(users) && !Listed(users, user, id)
    ensures ListsClean(AddId(users, user, id))
    ensures forall u, x :: Listed(AddId(users, user, id), u, x) <==> Listed(users, u, x) || (u == user && x == id)
  {
  }

  lemma DropIdExact(users: map<nat, seq<nat>>, user: nat, id: nat)
    requires ListsClean(users)
    ensures ListsClean(DropId(users, user, id))
    ensures forall u, x :: Listed(DropId(users, user, id), u, x) <==> Listed(users, u, x) && !(u == user && x == id)
  {
    if user in users {
      StripExact(users[user], id);
    }
  }

  lemma {:induction false} DropAllExact(users: map<nat, seq<nat>>, gone: seq<Ord>)
    requires ListsClean(users)
    ensures ListsClean(DropAll(users, gone))
    ensures forall u, x :: Listed(DropAll(users, gone), u, x) <==> Listed(users, u, x) && !Holds(gone, u, x)
  {
    if gone != [] {
      var init, last := gone[..|gone| - 1], gone[|gone| - 1];
      DropAllExact(users, init);
      DropIdExact(DropAll(users, init), last.user, last.id);
      forall u, x ensures Holds(gone, u, x) <==> Holds(init, u, x) || (u == last.user && x == last.id) {
        if u == last.user && x == last.id { assert gone[|gone| - 1].id == x; }
        if Holds(init, u, x) {
          var i :| 0 <= i < |init| && init[i].id == x && init[i].user == u;
          assert gone[i] == init[i];
        }
      }
    }
  }

  // ---- Queues -----------------------------------------------------------------------------

  lemma HoldsWithout(q: seq<Ord>, i: nat)
    requires i < |q| && Distinct(q)
    ensures Distinct(Without(q, i))
    ensures forall id :: HasId(Without(q, i), id) <==> HasId(q, id) && id != q[i].id
    ensures forall u, id :: Holds(Without(q, i), u, id) <==> Holds(q, u, id) && id != q[i].id
  {
    var r := Without(q, i);
    forall id ensures HasId(r, id) <==> HasId(q, id) && id != q[i].id {
      if HasId(q, id) && id != q[i].id {
        var k :| 0 <= k < |q| && q[k].id == id;
        assert r[if k < i then k else k - 1].id == id;
      }
    }
    forall u, id ensures Holds(r, u, id) <==> Holds(q, u, id) && id != q[i].id {
      if Holds(q, u, id) && id != q[i].id {
        var k :| 0 <= k < |q| && q[k].id == id && q[k].user == u;
        assert r[if k < i then k else k - 1] == q[k];
      }
    }
  }

  lemma HoldsInsert(q: seq<Ord>, n: nat, o: Ord)
    requires n <= |q| && Distinct(q) && !HasId(q, o.id)
    ensures Distinct(InsertAt(q, n, o))
    ensures forall id :: HasId(InsertAt(q, n, o), id) <==> HasId(q, id) || id == o.id
    ensures forall u, id :: Holds(InsertAt(q, n, o), u, id) <==> Holds(q, u, id) || (u == o.user && id == o.id)
  {
    var r := InsertAt(q, n, o);
    assert r[n] == o;
    forall id | HasId(q, id) ensures HasId(r, id) {
      var k :| 0 <= k < |q| && q[k].id == id;
      assert r[if k < n then k else k + 1].id == id;
    }
    forall u, id | Holds(q, u, id) ensures Holds(r, u, id) {
      var k :| 0 <= k < |q| && q[k].id == id && q[k].user == u;
      assert r[if k < n then k else k + 1] == q[k];
    }
  }

  /** `gone` and `rest` are the two parts of `q`, as orders. */
  ghost predicate Parted(q: seq<Ord>, gone: seq<Ord>, rest: seq<Ord>) {
    && Behind(q, |gone|, rest)
    && forall i :: 0 <= i < |gone| ==> gone[i].id == q[i].id && gone[i].user == q[i].user
  }

  lemma HoldsParted(q: seq<Ord>, gone: seq<Ord>, rest: seq<Ord>)
    requires Parted(q, gone, rest) && Distinct(q)
    ensures Distinct(rest)
    ensures forall id :: HasId(rest, id) <==> HasId(q, id) && !HasId(gone, id)
    ensures forall u, id :: Holds(rest, u, id) <==> Holds(q, u, id) && !Holds(gone, u, id)
    ensures forall u, id :: Holds(gone, u, id) ==> Holds(q, u, id)
    ensures forall id :: HasId(gone, id) ==> HasId(q, id)
  {
    var g := |gone|;
    forall i, j | 0 <= i < j < |rest| ensures rest[i].id != rest[j].id {
      assert SameOrder(rest[i], q[g + i]) && SameOrder(rest[j], q[g + j]);
    }
    forall id ensures HasId(rest, id) <==> HasId(q, id) && !HasId(gone, id) {
      if HasId(rest, id) {
        var k :| 0 <= k < |rest| && rest[k].id == id;
        assert SameOrder(rest[k], q[g + k]);
      }
      if HasId(q, id) {
        var k :| 0 <= k < |q| && q[k].id == id;
        if k < g {
          assert gone[k].id == id;
        } else {
          assert SameOrder(rest[k - g], q[g + (k - g)]);
        }
      }
    }
    forall u, id ensures Holds(rest, u, id) <==> Holds(q, u, id) && !Holds(gone, u, id) {
      if Holds(rest, u, id) {
        var k :| 0 <= k < |rest| && rest[k].id == id && rest[k].user == u;
        assert SameOrder(rest[k], q[g + k]);
      }
      if Holds(q, u, id) {
        var k :| 0 <= k < |q| && q[k].id == id && q[k].user == u;
        if k < g {
          assert gone[k].id == id && gone[k].user == u;
        } else {
          assert SameOrder(rest[k - g], q[g + (k - g)]);
        }
      }
    }
  }

  // ---- Steps ------------------------------------------------------------------------------

  lemma GoneAt(rule: Rule, taker: Ord, q: seq<Ord>, fuel: nat)
    requires !rule.Simd? && Live(q) && taker.remaining >= 0
    ensures var out := Match(rule, taker, q, fuel);
      forall i :: 0 <= i < |out.gone| ==> i < |q| && out.gone[i] == Traded(q[i], q[i].remaining)
  {
    MatchIsGreedy(rule, taker, q, fuel);
  }

  lemma MatchParts(w: World, s: State, o: Ord)
    requires BookSound(w, s) && o.remaining >= 0
    ensures Parted(s.Side(o.side.Opposite()).queue, MatchOf(w, s, o).gone, MatchOf(w, s, o).book)
  {
    var side := o.side.Opposite();
    GoneAt(Classic, Arrived(w, s, o), s.Side(side).queue, MAX_ITERATIONS);
    QueueMatched(Classic, Arrived(w, s, o), s.Side(side).queue, MAX_ITERATIONS, side, s.sequence, w.clock(s.tick));
  }

  lemma DisownExact(owned: set<nat>, gone: seq<Ord>)
    ensures forall id :: id in Disown(owned, gone) <==> id in owned && !HasId(gone, id)
  {
  }

  lemma MatchedIndex(w: World, s: State, o: Ord)
    requires BookSound(w, s) && IndexAgrees(s) && o.remaining >= 0
    ensures IndexAgrees(Matched(w, s, o))
    ensures forall id :: id in Matched(w, s, o).owned ==> id in s.owned
  {
    var out, side := MatchOf(w, s, o), o.side.Opposite();
    MatchParts(w, s, o);
    HoldsParted(s.Side(side).queue, out.gone, out.book);
    DisownExact(s.owned, out.gone);
    DropAllExact(s.users, out.gone);
    OthersApart(s.Side(side).queue, s.Side(o.side).queue, out.gone, out.book);
  }

  /** Whoever left one side was not on the other. */
  lemma OthersApart(q: seq<Ord>, other: seq<Ord>, gone: seq<Ord>, rest: seq<Ord>)
    requires Parted(q, gone, rest) && (Apart(q, other) || Apart(other, q))
    ensures Apart(rest, other) && Apart(other, rest)
    ensures forall id :: HasId(other, id) ==> !HasId(gone, id)
    ensures forall u, id :: Holds(other, u, id) ==> !Holds(gone, u, id)
  {
    forall i, j | 0 <= i < |rest| && 0 <= j < |other| ensures rest[i].id != other[j].id {
      assert SameOrder(rest[i], q[|gone| + i]);
    }
  }

  lemma WithOrderIndex(s: State, o: Ord)
    requires IndexAgrees(s) && o.id !in s.owned && Rests(o)
    ensures IndexAgrees(Placed(s, o))
  {
    var h := s.Side(o.side);
    HoldsInsert(h.queue, Position(o.side.Buy?, OrdKeys(h.queue), Key(o.price, o.timestamp)), o);
    assert !Listed(s.users, o.user, o.id);
    AddIdExact(s.users, o.user, o.id);
  }

  lemma ProcessKeepsIndex(w: World, s: State, o: Ord)
    requires NeverBackwards(w) && BookSound(w, s) && IndexAgrees(s) && Fresh(o) && o.id !in s.owned
    ensures IndexAgrees(Process(w, s, o))
  {
    if Acceptable(w, o) {
      var s', o' := Matched(w, s, o), TakerAfter(w, s, o);
      MatchedIndex(w, s, o);
      if Rests(o') {
        SoundTaker(w, s, o);
        WithOrderIndex(s', o');
      }
    }
  }

  lemma RemovedIndex(s: State, side: Side, i: nat)
    requires IndexAgrees(s) && i < |s.Side(side).queue|
    ensures IndexAgrees(Removed(s, side, i))
  {
    var q, o := s.Side(side).queue, s.Side(side).queue[i];
    HoldsWithout(q, i);
    DropIdExact(s.users, o.user, o.id);
    assert Holds(q, o.user, o.id);
    assert forall u :: Holds(q, u, o.id) ==> u == o.user;
  }

  lemma CancelKeepsIndex(s: State, id: nat, user: nat)
    requires IndexAgrees(s)
    ensures IndexAgrees(Cancel(s, id, user))
  {
    if HasId(s.bids.queue, id) {
      RemovedIndex(s, Buy, IndexOf(s.bids.queue, id));
    } else if HasId(s.asks.queue, id) {
      RemovedIndex(s, Sell, IndexOf(s.asks.queue, id));
    }
  }

  lemma {:induction false} CancelEachKeepsIndex(s: State, ids: seq<nat>, user: nat)
    requires IndexAgrees(s)
    ensures IndexAgrees(CancelEach(s, ids, user))
  {
    if ids != [] {
      CancelEachKeepsIndex(s, ids[..|ids| - 1], user);
      CancelKeepsIndex(CancelEach(s, ids[..|ids| - 1], user), ids[|ids| - 1], user);
    }
  }

  // ---- Cancelling everything a user has ------------------------------------------------------

  /** The orders of the queue whose ids are not among `ids`, in the same order. */
  ghost function Unlisted(q: seq<Ord>, ids: seq<nat>): seq<Ord> {
    if q == [] then []
    else
      var last := q[|q| - 1];
      Unlisted(q[..|q| - 1], ids) + if last.id in ids then [] else [last]
  }

  /** The orders of the queue that are not `user`'s, in the same order. */
  ghost function NotOf(q: seq<Ord>, user: nat): seq<Ord> {
    if q == [] then []
    else
      var last := q[|q| - 1];
      NotOf(q[..|q| - 1], user) + if last.user == user then [] else [last]
  }

  lemma {:induction false} UnlistedAbsent(q: seq<Ord>, ids: seq<nat>, id: nat)
    requires !HasId(q, id)
    ensures Unlisted(q, ids + [id]) == Unlisted(q, ids)
  {
    if q != [] {
      var init, last := q[..|q| - 1], q[|q| - 1];
      assert forall i :: 0 <= i < |init| ==> init[i] == q[i];
      UnlistedAbsent(init, ids, id);
      assert last.id in ids + [id] <==> last.id in ids;
    }
  }

  lemma {:induction false} UnlistedHas(q: seq<Ord>, ids: seq<nat>)
    ensures forall u, id :: Holds(Unlisted(q, ids), u, id) <==> Holds(q, u, id) && id !in ids
    ensures forall id :: HasId(Unlisted(q, ids), id) <==> HasId(q, id) && id !in ids
  {
    if q != [] {
      var init, last := q[..|q| - 1], q[|q| - 1];
      UnlistedHas(init, ids);
      HoldsAppend(init, last);
      HoldsAppend(Unlisted(init, ids), last);
      assert q == init + [last] && Unlisted(init, ids) + [] == Unlisted(init, ids);
    }
  }

  lemma HoldsAppend(q: seq<Ord>, o: Ord)
    ensures forall u, id :: Holds(q + [o], u, id) <==> Holds(q, u, id) || (u == o.user && id == o.id)
    ensures forall id :: HasId(q + [o], id) <==> HasId(q, id) || id == o.id
  {
    var r := q + [o];
    assert r[|q|] == o;
    assert forall i :: 0 <= i < |q| ==> r[i] == q[i];
  }

  lemma {:induction false} UnlistedWithout(q: seq<Ord>, ids: seq<nat>, i: nat)
    requires Distinct(q) && i < |Unlisted(q, ids)|
    ensures Without(Unlisted(q, ids), i) == Unlisted(q, ids + [Unlisted(q, ids)[i].id])
  {
    var id := Unlisted(q, ids)[i].id;
    if q != [] {
      var init, last := q[..|q| - 1], q[|q| - 1];
      assert last.id in ids + [id] <==> last.id in ids || last.id == id;
      if i < |Unlisted(init, ids)| {
        UnlistedWithout(init, ids, i);
        UnlistedHas(init, ids);
        assert HasId(Unlisted(init, ids), id);
      } else {
        assert !HasId(init, id);
        UnlistedAbsent(init, ids, id);
      }
    }
  }

  lemma {:induction false} UnlistedIsNotOf(q: seq<Ord>, ids: seq<nat>, user: nat)
    requires forall i :: 0 <= i < |q| ==> (q[i].id in ids <==> q[i].user == user)
    ensures Unlisted(q, ids) == NotOf(q, user)
  {
    if q != [] { UnlistedIsNotOf(q[..|q| - 1], ids, user); }
  }

  /** Cancelling an order its owner has in the book takes out that order and nothing else. */
  lemma CancelTakes(w: World, s: State, id: nat, user: nat) returns (side: Side, i: nat)
    requires BookSound(w, s) && IndexAgrees(s) && Resident(s, user, id)
    ensures i < |s.Side(side).queue| && s.Side(side).queue[i].id == id && s.Side(side).queue[i].user == user
    ensures Cancel(s, id, user) == Removed(s, side, i)
  {
    side := if Holds(s.bids.queue, user, id) then Buy else Sell;
    var q := s.Side(side).queue;
    i :| i < |q| && q[i].id == id && q[i].user == user;
    assert HasId(q, id) && IndexOf(q, id) == i;
    assert side.Sell? ==> !HasId(s.bids.queue, id);
    assert Sound(q[i], side, s.sequence, w.clock(s.tick));
  }

  lemma {:induction false} CancelEachTakes(w: World, s: State, ids: seq<nat>, user: nat)
    requires BookSound(w, s) && IndexAgrees(s) && NoRepeats(ids)
    requires forall k :: 0 <= k < |ids| ==> Resident(s, user, ids[k])
    ensures var s' := CancelEach(s, ids, user);
      && s'.bids.queue == Unlisted(s.bids.queue, ids) && s'.asks.queue == Unlisted(s.asks.queue, ids)
      && s'.users - {user} == s.users - {user}
  {
    if ids == [] {
      UnlistedNone(s.bids.queue);
      UnlistedNone(s.asks.queue);
    } else {
      var init, id := ids[..|ids| - 1], ids[|ids| - 1];
      var m := CancelEach(s, init, user);
      assert ids == init + [id];
      CancelEachTakes(w, s, init, user);
      CancelEachKeeps(w, s, init, user);
      CancelEachKeepsIndex(s, init, user);
      CancelNext(w, s, m, init, id, user);
    }
  }

  lemma {:induction false} UnlistedNone(q: seq<Ord>)
    ensures Unlisted(q, []) == q
  {
    if q != [] { UnlistedNone(q[..|q| - 1]); }
  }

  lemma CancelNext(w: World, s: State, m: State, ids: seq<nat>, id: nat, user: nat)
    requires BookSound(w, m) && IndexAgrees(m) && IndexAgrees(s) && Resident(s, user, id) && id !in ids
    requires m.bids.queue == Unlisted(s.bids.queue, ids) && m.asks.queue == Unlisted(s.asks.queue, ids)
    ensures var m' := Cancel(m, id, user);
      && m'.bids.queue == Unlisted(s.bids.queue, ids + [id]) && m'.asks.queue == Unlisted(s.asks.queue, ids + [id])
      && m'.users - {user} == m.users - {user}
  {
    UnlistedHas(s.bids.queue, ids);
    UnlistedHas(s.asks.queue, ids);
    var side, i := CancelTakes(w, m, id, user);
    RemovedUnlists(s, m, side, i, ids);
  }

  lemma RemovedUnlists(s: State, m: State, side: Side, i: nat, ids: seq<nat>)
    requires IndexAgrees(m) && i < |m.Side(side).queue| && m.Side(side).queue[i].id !in ids
    requires Distinct(s.Side(side).queue)
    requires m.bids.queue == Unlisted(s.bids.queue, ids) && m.asks.queue == Unlisted(s.asks.queue, ids)
    ensures var m', o := Removed(m, side, i), m.Side(side).queue[i];
      && m'.bids.queue == Unlisted(s.bids.queue, ids + [o.id]) && m'.asks.queue == Unlisted(s.asks.queue, ids + [o.id])
      && m'.users - {o.user} == m.users - {o.user}
  {
    var id, other := m.Side(side).queue[i].id, s.Side(side.Opposite()).queue;
    UnlistedWithout(s.Side(side).queue, ids, i);
    UnlistedHas(other, ids);
    assert !HasId(m.Side(side.Opposite()).queue, id);
    UnlistedAbsent(other, ids, id);
  }

  /** Cancelling all of a user's orders removes exactly that user's orders, leaves everyone else in
      place and in order, and leaves the user without a list. */
  lemma CancelAllExact(w: World, s: State, user: nat)
    requires BookSound(w, s) && IndexAgrees(s)
    ensures var s' := CancelAll(s, user);
      && s'.bids.queue == NotOf(s.bids.queue, user) && s'.asks.queue == NotOf(s.asks.queue, user)
      && s'.users == s.users - {user} && IndexAgrees(s')
  {
    var ids := if user in s.users then s.users[user] else [];
    assert forall k :: 0 <= k < |ids| ==> Listed(s.users, user, ids[k]);
    CancelEachTakes(w, s, ids, user);
    CancelEachKeepsIndex(s, ids, user);
    ListedExactly(s, s.bids.queue, ids, user);
    ListedExactly(s, s.asks.queue, ids, user);
    UnlistedIsNotOf(s.bids.queue, ids, user);
    UnlistedIsNotOf(s.asks.queue, ids, user);
    NobodyLeft(CancelAll(s, user), user, s);
  }

  lemma ListedExactly(s: State, q: seq<Ord>, ids: seq<nat>, user: nat)
    requires IndexAgrees(s) && (q == s.bids.queue || q == s.asks.queue)
    requires forall id :: id in ids <==> Listed(s.users, user, id)
    ensures forall i :: 0 <= i < |q| ==> (q[i].id in ids <==> q[i].user == user)
  {
    forall i | 0 <= i < |q| ensures q[i].id in ids <==> q[i].user == user {
      assert Holds(q, q[i].user, q[i].id);
      if q[i].user != user && Resident(s, user, q[i].id) {
        assert false;
      }
    }
  }

  lemma {:induction false} NotOfHolds(q: seq<Ord>, user: nat)
    ensures forall i :: 0 <= i < |NotOf(q, user)| ==> NotOf(q, user)[i].user != user
  {
    if q != [] { NotOfHolds(q[..|q| - 1], user); }
  }

  lemma NobodyLeft(s': State, user: nat, s: State)
    requires IndexAgrees(s') && s'.users - {user} == s.users - {user}
    requires s'.bids.queue == NotOf(s.bids.queue, user) && s'.asks.queue == NotOf(s.asks.queue, user)
    ensures s'.users == s.users - {user}
  {
    NotOfHolds(s.bids.queue, user);
    NotOfHolds(s.asks.queue, user);
    if user in s'.users {
      assert Listed(s'.users, user, s'.users[user][0]);
    }
  }
}
