/** The ticket queue for many producers and consumers, as interleaved atomic steps. A push takes a
    ticket, then waits for its slot to be empty and fills it; a pop takes a ticket, then waits for its
    slot to be full and empties it. */
module MpmcQueue {
  import opened Masks

  datatype Slot<T> = Free | Full(item: T)

  /** What went through one slot: the pushes and the pops, each with its ticket, in order. */
  datatype Passage<T> = Passage(ticket: nat, item: T)

  /** `items[t]` is the item of push ticket `t`. `pushing` and `popping` are the tickets still waiting. */
  datatype Queue<T> = Queue(capacity: nat, slots: seq<Slot<T>>, items: seq<T>, popTickets: nat,
                            pushing: set<nat>, popping: set<nat>,
                            ins: seq<seq<Passage<T>>>, outs: seq<seq<Passage<T>>>)

  datatype Step<T> =
    | TakePushTicket(item: T)
    | Fill(ticket: nat)
    | TakePopTicket
    | Empty(ticket: nat)

  function SlotOf<T>(s: Queue<T>, ticket: nat): nat
    requires s.capacity > 0
  {
    And(ticket, s.capacity - 1)
  }

  ghost predicate Shaped<T>(s: Queue<T>) {
    && PowerOfTwo(s.capacity) && |s.slots| == |s.ins| == |s.outs| == s.capacity
    && (forall t :: t in s.pushing ==> t < |s.items|) && forall t :: t in s.popping ==> t < s.popTickets
  }

  lemma SlotInRange<T>(s: Queue<T>, ticket: nat)
    requires Shaped(s)
    ensures SlotOf(s, ticket) == ticket % s.capacity < s.capacity
  {
    MaskIsRemainder(ticket, s.capacity);
  }

  /** A waiting thread moves when the slot of its ticket is in the state it waits for. */
  ghost predicate Enabled<T>(s: Queue<T>, a: Step<T>)
    requires Shaped(s)
  {
    match a
    case TakePushTicket(_) => true
    case Fill(t) => t in s.pushing && s.slots[t % s.capacity].Free?
    case TakePopTicket => true
    case Empty(t) => t in s.popping && s.slots[t % s.capacity].Full?
  }

  ghost function Do<T>(s: Queue<T>, a: Step<T>): Queue<T>
    requires Shaped(s) && Enabled(s, a)
  {
    match a
    case TakePushTicket(item) => s.(items := s.items + [item], pushing := s.pushing + {|s.items|})
    case Fill(t) =>
      SlotInRange(s, t);
      var i := SlotOf(s, t);
      s.(slots := s.slots[i := Full(s.items[t])], pushing := s.pushing - {t},
         ins := s.ins[i := s.ins[i] + [Passage(t, s.items[t])]])
    case TakePopTicket => s.(popTickets := s.popTickets + 1, popping := s.popping + {s.popTickets})
    case Empty(t) =>
      SlotInRange(s, t);
      var i := SlotOf(s, t);
      s.(slots := s.slots[i := Free], popping := s.popping - {t},
         outs := s.outs[i := s.outs[i] + [Passage(t, s.slots[i].item)]])
  }

  ghost predicate Init<T>(s: Queue<T>) {
    && PowerOfTwo(s.capacity) && |s.slots| == |s.ins| == |s.outs| == s.capacity
    && s.items == [] && s.popTickets == 0 && s.pushing == {} && s.popping == {}
    && forall i :: 0 <= i < s.capacity ==> s.slots[i].Free? && s.ins[i] == [] && s.outs[i] == []
  }

  // ---- Alternation ------------------------------------------------------------------------

  /** Pushes and pops of one slot alternate, and each pop gets the item of the push before it. */
  ghost predicate Alternates<T>(slot: Slot<T>, pushes: seq<Passage<T>>, pops: seq<Passage<T>>) {
    && |pushes| == |pops| + (if slot.Full? then 1 else 0)
    && (forall k :: 0 <= k < |pops| ==> pops[k].item == pushes[k].item)
    && (slot.Full? ==> slot.item == pushes[|pops|].item)
  }

  /** The tickets of the passages are tickets of this slot that no longer wait, each once. */
  ghost predicate Passed(pushes: seq<nat>, i: nat, capacity: nat, issued: nat, waiting: set<nat>)
    requires capacity > 0
  {
    && (forall k :: 0 <= k < |pushes| ==> pushes[k] < issued && pushes[k] % capacity == i && pushes[k] !in waiting)
    && (forall j, k :: 0 <= j < k < |pushes| ==> pushes[j] != pushes[k])
    && forall t: nat :: t < issued && t % capacity == i && t !in waiting ==> t in pushes
  }

  function Tickets<T>(p: seq<Passage<T>>): (r: seq<nat>)
    ensures |r| == |p| && forall k :: 0 <= k < |p| ==> r[k] == p[k].ticket
  {
    seq(|p|, k requires 0 <= k < |p| => p[k].ticket)
  }

  ghost predicate SlotInv<T>(s: Queue<T>, i: nat)
    requires Shaped(s) && i < s.capacity
  {
    && Alternates(s.slots[i], s.ins[i], s.outs[i])
    && (forall k :: 0 <= k < |s.ins[i]| ==>
         s.ins[i][k].ticket < |s.items| && s.ins[i][k].item == s.items[s.ins[i][k].ticket])
    && Passed(Tickets(s.ins[i]), i, s.capacity, |s.items|, s.pushing)
    && Passed(Tickets(s.outs[i]), i, s.capacity, s.popTickets, s.popping)
  }

  /** No item is lost or doubled: the issued tickets of a slot are, each once, the waiting ones and the
      ones that passed through it, and the pops took the items of the first pushes in their order. */
  ghost predicate Inv<T>(s: Queue<T>) {
    Shaped(s) && forall i :: 0 <= i < s.capacity ==> SlotInv(s, i)
  }

  // ---- Steps ------------------------------------------------------------------------------

  lemma PassedIssued(p: seq<nat>, i: nat, c: nat, n: nat, w: set<nat>)
    requires c > 0 && Passed(p, i, c, n, w) && forall t :: t in w ==> t < n
    ensures Passed(p, i, c, n + 1, w + {n})
  {
  }

  lemma PassedTaken(p: seq<nat>, i: nat, c: nat, n: nat, w: set<nat>, t: nat)
    requires c > 0 && Passed(p, i, c, n, w) && t in w && t < n
    ensures t % c == i ==> Passed(p + [t], i, c, n, w - {t})
    ensures t % c != i ==> Passed(p, i, c, n, w - {t})
  {
    if t % c == i {
      var p' := p + [t];
      assert p'[|p|] == t;
      assert forall k :: 0 <= k < |p| ==> p'[k] == p[k];
      forall u: nat | u < n && u % c == i && u !in w - {t} ensures u in p' {
        if u != t { assert u in p; }
      }
    }
  }

  lemma InitHolds<T>(s: Queue<T>)
    requires Init(s)
    ensures Inv(s)
  {
  }

  lemma PushTicketHolds<T>(s: Queue<T>, item: T)
    requires Inv(s)
    ensures Inv(Do(s, TakePushTicket(item)))
  {
    var s' := Do(s, TakePushTicket(item));
    forall i | 0 <= i < s.capacity ensures SlotInv(s', i) {
      assert SlotInv(s, i);
      PassedIssued(Tickets(s.ins[i]), i, s.capacity, |s.items|, s.pushing);
    }
  }

  lemma PopTicketHolds<T>(s: Queue<T>)
    requires Inv(s)
    ensures Inv(Do(s, TakePopTicket))
  {
    var s' := Do(s, TakePopTicket);
    forall i | 0 <= i < s.capacity ensures SlotInv(s', i) {
      assert SlotInv(s, i);
      PassedIssued(Tickets(s.outs[i]), i, s.capacity, s.popTickets, s.popping);
    }
  }

  lemma TicketsMore<T>(p: seq<Passage<T>>, t: nat, item: T)
    ensures Tickets(p + [Passage(t, item)]) == Tickets(p) + [t]
  {
  }

  lemma FillHolds<T>(s: Queue<T>, t: nat)
    requires Inv(s) && Enabled(s, Fill(t))
    ensures Inv(Do(s, Fill(t)))
  {
    var s' := Do(s, Fill(t));
    SlotInRange(s, t);
    forall i | 0 <= i < s.capacity ensures SlotInv(s', i) {
      assert SlotInv(s, i);
      PassedTaken(Tickets(s.ins[i]), i, s.capacity, |s.items|, s.pushing, t);
      TicketsMore(s.ins[i], t, s.items[t]);
    }
  }

  lemma EmptyHolds<T>(s: Queue<T>, t: nat)
    requires Inv(s) && Enabled(s, Empty(t))
    ensures Inv(Do(s, Empty(t)))
  {
    var s', j := Do(s, Empty(t)), t % s.capacity;
    SlotInRange(s, t);
    forall i | 0 <= i < s.capacity ensures SlotInv(s', i) {
      assert SlotInv(s, i);
      PassedTaken(Tickets(s.outs[i]), i, s.capacity, s.popTickets, s.popping, t);
      if i == j { TicketsMore(s.outs[i], t, s.slots[i].item); }
    }
  }

  lemma StepHolds<T>(s: Queue<T>, a: Step<T>)
    requires Inv(s) && Enabled(s, a)
    ensures Inv(Do(s, a))
  {
    match a
    case TakePushTicket(item) => PushTicketHolds(s, item);
    case Fill(t) => FillHolds(s, t);
    case TakePopTicket => PopTicketHolds(s);
    case Empty(t) => EmptyHolds(s, t);
  }

  /** A run is a list of steps, each enabled when taken. */
  ghost predicate Runs<T>(s: Queue<T>, steps: seq<Step<T>>, s': Queue<T>)
    decreases |steps|
  {
    if steps == [] then s' == s
    else Shaped(s) && Enabled(s, steps[0]) && Runs(Do(s, steps[0]), steps[1..], s')
  }

  /** Where a pushed item is: its push passed through its slot once, as the `k`-th, and either the `k`-th pop of
      the slot took it, and no other, or it is in the slot. */
  lemma EachItemOnce<T>(s: Queue<T>, t: nat) returns (k: nat)
    requires Inv(s) && t < |s.items| && t !in s.pushing
    ensures t % s.capacity < s.capacity
    ensures var i := t % s.capacity; var ins, outs := s.ins[i], s.outs[i];
      && k < |ins| && k <= |outs| && ins[k] == Passage(t, s.items[t])
      && (forall j :: 0 <= j < |ins| && j != k ==> ins[j].ticket != t)
      && (if k < |outs| then outs[k].item == s.items[t] else s.slots[i] == Full(s.items[t]))
  {
    SlotInRange(s, t);
    var i := t % s.capacity;
    assert SlotInv(s, i);
    assert t in Tickets(s.ins[i]);
    k :| 0 <= k < |s.ins[i]| && Tickets(s.ins[i])[k] == t;
    forall j | 0 <= j < |s.ins[i]| && j != k ensures s.ins[i][j].ticket != t {
      assert Tickets(s.ins[i])[j] != Tickets(s.ins[i])[k];
    }
  }

  /** In every interleaving no item is lost or doubled, and each slot alternates. */
  lemma {:induction false} NothingLost<T>(s: Queue<T>, steps: seq<Step<T>>, s': Queue<T>)
    requires Inv(s) && Runs(s, steps, s')
    ensures Inv(s')
    decreases |steps|
  {
    if steps != [] {
      StepHolds(s, steps[0]);
      NothingLost(Do(s, steps[0]), steps[1..], s');
    }
  }

  // ---- First in, first out ------------------------------------------------------------------

  /** No two waiting tickets share a slot. */
  ghost predicate Solo(w: set<nat>, c: nat)
    requires c > 0
  {
    forall t, u :: t in w && u in w && t % c == u % c ==> t == u
  }

  ghost predicate SoloRuns<T>(s: Queue<T>, steps: seq<Step<T>>, s': Queue<T>)
    decreases |steps|
  {
    && s.capacity > 0 && Solo(s.pushing, s.capacity) && Solo(s.popping, s.capacity)
    && if steps == [] then s' == s
       else Shaped(s) && Enabled(s, steps[0]) && SoloRuns(Do(s, steps[0]), steps[1..], s')
  }

  /** The tickets of a slot passed in the order they were issued, without a gap. */
  ghost predicate InOrder(p: seq<nat>, i: nat, c: nat) {
    forall k :: 0 <= k < |p| ==> p[k] == i + c * k
  }

  lemma InOrderAt(p: seq<nat>, i: nat, c: nat, q: nat)
    requires InOrder(p, i, c)
    ensures q < |p| ==> i + c * q in p
  {
    if q < |p| { assert p[q] == i + c * q; }
  }

  /** The only waiting ticket of a slot is the next one. */
  lemma NextTicket(p: seq<nat>, i: nat, c: nat, n: nat, w: set<nat>, t: nat)
    requires c > 0 && i < c && Passed(p, i, c, n, w) && InOrder(p, i, c) && Solo(w, c)
    requires t in w && t < n && t % c == i
    ensures t == i + c * |p|
  {
    var q, m := t / c, |p|;
    assert t == c * q + i;
    InOrderAt(p, i, c, q);
    if q > m {
      var u := i + c * m;
      RemainderIs(u, c, m, i);
      TimesMonotone(c, m, q);
      if u in p {
        var k :| 0 <= k < m && p[k] == u;
        TimesMonotone(c, k, m);
      }
    }
  }

  ghost predicate Fair<T>(s: Queue<T>) {
    && Inv(s)
    && forall i :: 0 <= i < s.capacity ==>
         InOrder(Tickets(s.ins[i]), i, s.capacity) && InOrder(Tickets(s.outs[i]), i, s.capacity)
  }

  lemma InOrderMore(p: seq<nat>, i: nat, c: nat)
    requires InOrder(p, i, c)
    ensures InOrder(p + [i + c * |p|], i, c)
  {
  }

  lemma FairFill<T>(s: Queue<T>, t: nat)
    requires Fair(s) && Enabled(s, Fill(t)) && Solo(s.pushing, s.capacity)
    ensures Fair(Do(s, Fill(t)))
  {
    StepHolds(s, Fill(t));
    var i, c := t % s.capacity, s.capacity;
    SlotInRange(s, t);
    assert SlotInv(s, i);
    NextTicket(Tickets(s.ins[i]), i, c, |s.items|, s.pushing, t);
    InOrderMore(Tickets(s.ins[i]), i, c);
    TicketsMore(s.ins[i], t, s.items[t]);
  }

  lemma FairEmpty<T>(s: Queue<T>, t: nat)
    requires Fair(s) && Enabled(s, Empty(t)) && Solo(s.popping, s.capacity)
    ensures Fair(Do(s, Empty(t)))
  {
    StepHolds(s, Empty(t));
    var i, c := t % s.capacity, s.capacity;
    SlotInRange(s, t);
    assert SlotInv(s, i);
    NextTicket(Tickets(s.outs[i]), i, c, s.popTickets, s.popping, t);
    InOrderMore(Tickets(s.outs[i]), i, c);
    TicketsMore(s.outs[i], t, s.slots[i].item);
  }

  lemma FairStep<T>(s: Queue<T>, a: Step<T>)
    requires Fair(s) && Enabled(s, a) && Solo(s.pushing, s.capacity) && Solo(s.popping, s.capacity)
    ensures Fair(Do(s, a))
  {
    match a
    case Fill(t) => FairFill(s, t);
    case Empty(t) => FairEmpty(s, t);
    case _ => StepHolds(s, a);
  }

  /** When waiting tickets never share a slot, pop ticket `t` gets the item of push ticket `t`. */
  lemma {:induction false} FifoWhenSolo<T>(s: Queue<T>, steps: seq<Step<T>>, s': Queue<T>)
    requires Fair(s) && SoloRuns(s, steps, s')
    ensures Fair(s')
    ensures forall i, k :: 0 <= i < s'.capacity && 0 <= k < |s'.outs[i]| ==>
      s'.outs[i][k].ticket < |s'.items| && s'.outs[i][k].item == s'.items[s'.outs[i][k].ticket]
    decreases |steps|
  {
    if steps == [] {
      forall i, k | 0 <= i < s.capacity && 0 <= k < |s.outs[i]|
        ensures s.outs[i][k].ticket < |s.items| && s.outs[i][k].item == s.items[s.outs[i][k].ticket]
      {
        assert SlotInv(s, i);
        assert Tickets(s.outs[i])[k] == Tickets(s.ins[i])[k];
      }
    } else {
      FairStep(s, steps[0]);
      FifoWhenSolo(Do(s, steps[0]), steps[1..], s');
    }
  }

  lemma InitFair<T>(s: Queue<T>)
    requires Init(s)
    ensures Fair(s)
  {
  }

  /** A queue as constructed keeps every pushed item, through its slot once and popped once or still there. */
  lemma NewQueueKeepsAll<T>(s: Queue<T>, steps: seq<Step<T>>, s': Queue<T>, t: nat) returns (k: nat)
    requires Init(s) && Runs(s, steps, s') && t < |s'.items| && t !in s'.pushing
    ensures s'.capacity > 0 && Shaped(s') && t % s'.capacity < |s'.ins|
    ensures var i := t % s'.capacity;
      && k < |s'.ins[i]| && s'.ins[i][k] == Passage(t, s'.items[t])
      && (if k < |s'.outs[i]| then s'.outs[i][k].item == s'.items[t] else s'.slots[i] == Full(s'.items[t]))
  {
    InitHolds(s);
    NothingLost(s, steps, s');
    k := EachItemOnce(s', t);
  }

  /** And hands items over in the order of the tickets as long as no two waiting tickets share a slot. */
  lemma NewQueueFifo<T>(s: Queue<T>, steps: seq<Step<T>>, s': Queue<T>)
    requires Init(s) && SoloRuns(s, steps, s')
    ensures s'.capacity <= |s'.outs|
    ensures forall i, k :: 0 <= i < s'.capacity && 0 <= k < |s'.outs[i]| ==>
      s'.outs[i][k].ticket < |s'.items| && s'.outs[i][k].item == s'.items[s'.outs[i][k].ticket]
  {
    InitFair(s);
    FifoWhenSolo(s, steps, s');
  }

  // ---- Two pushes at one slot -----------------------------------------------------------------

  lemma {:induction false} RunsConcat<T>(s: Queue<T>, a: seq<Step<T>>, m: Queue<T>, b: seq<Step<T>>, s': Queue<T>)
    requires Runs(s, a, m) && Runs(m, b, s')
    ensures Runs(s, a + b, s')
    decreases |a|
  {
    if a == [] {
      assert a + b == b;
    } else {
      assert (a + b)[1..] == a[1..] + b;
      RunsConcat(Do(s, a[0]), a[1..], m, b, s');
    }
  }

  lemma RunsOne<T>(s: Queue<T>, a: Step<T>)
    requires Shaped(s) && Enabled(s, a)
    ensures Runs(s, [a], Do(s, a))
  {
    assert Runs(Do(s, a), [], Do(s, a));
    assert [a][1..] == [];
  }

  /** The pops of every slot passed in order. */
  ghost predicate PopsInOrder<T>(s: Queue<T>) {
    Inv(s) && forall i :: 0 <= i < s.capacity ==> InOrder(Tickets(s.outs[i]), i, s.capacity)
  }

  function NextPop<T>(s: Queue<T>, i: nat): nat
    requires i < |s.outs|
  {
    i + s.capacity * |s.outs[i]|
  }

  /** Nothing but pop tickets was issued. */
  ghost predicate OnlyIssued<T>(s: Queue<T>, s': Queue<T>) {
    s' == s.(popTickets := s'.popTickets, popping := s'.popping)
  }

  /** Once issued, the next pop of a slot is waiting. */
  lemma NextPopWaits<T>(s: Queue<T>, i: nat)
    requires PopsInOrder(s) && i < s.capacity && NextPop(s, i) < s.popTickets
    ensures NextPop(s, i) in s.popping
  {
    var m, p := NextPop(s, i), Tickets(s.outs[i]);
    assert SlotInv(s, i);
    RemainderIs(m, s.capacity, |p|, i);
    if m !in s.popping {
      var k :| 0 <= k < |p| && p[k] == m;
      TimesMonotone(s.capacity, k, |p|);
    }
  }

  /** Issuing pop tickets until the next pop of slot `i` waits. */
  lemma {:induction false} AwaitPop<T>(s: Queue<T>, i: nat) returns (steps: seq<Step<T>>, s': Queue<T>)
    requires PopsInOrder(s) && i < s.capacity
    ensures Runs(s, steps, s') && PopsInOrder(s') && OnlyIssued(s, s') && NextPop(s', i) in s'.popping
    decreases if NextPop(s, i) < s.popTickets then 0 else NextPop(s, i) - s.popTickets + 1
  {
    steps, s' := [], s;
    if NextPop(s, i) < s.popTickets {
      NextPopWaits(s, i);
    } else {
      var m := Do(s, TakePopTicket);
      StepHolds(s, TakePopTicket);
      steps, s' := AwaitPop(m, i);
      RunsOne(s, TakePopTicket);
      RunsConcat(s, [TakePopTicket], m, steps, s');
      steps := [TakePopTicket] + steps;
    }
  }

  /** Slot `i` is emptied by the next pop of the slot, which gets the item in it. */
  lemma EmptyNext<T>(s: Queue<T>, i: nat) returns (steps: seq<Step<T>>, s': Queue<T>)
    requires PopsInOrder(s) && i < s.capacity && s.slots[i].Full?
    ensures Runs(s, steps, s') && PopsInOrder(s') && s'.capacity == s.capacity && s'.slots[i].Free?
    ensures s'.items == s.items && s'.pushing == s.pushing && s'.ins == s.ins
    ensures i < |s'.outs| && s'.outs[i] == s.outs[i] + [Passage(NextPop(s, i), s.slots[i].item)]
  {
    var m;
    steps, m := AwaitPop(s, i);
    var t := NextPop(m, i);
    RemainderIs(t, m.capacity, |m.outs[i]|, i);
    SlotInRange(m, t);
    assert Enabled(m, Empty(t));
    s' := Do(m, Empty(t));
    StepHolds(m, Empty(t));
    InOrderMore(Tickets(m.outs[i]), i, m.capacity);
    TicketsMore(m.outs[i], t, m.slots[i].item);
    RunsOne(m, Empty(t));
    RunsConcat(s, steps, m, [Empty(t)], s');
    steps := steps + [Empty(t)];
  }

  /** From any state reached in order, once two pushes wait for one slot the queue can go on in a way that gives
      a pop ticket of that slot the item of another push ticket. */
  lemma SharedSlotSwaps<T>(s: Queue<T>, t: nat, u: nat) returns (steps: seq<Step<T>>, s': Queue<T>, v: nat)
    requires Fair(s) && t in s.pushing && u in s.pushing && t != u && t % s.capacity == u % s.capacity
    ensures Runs(s, steps, s') && v in {t, u} && s'.capacity == s.capacity && t % s.capacity < |s'.outs|
    ensures var pops := s'.outs[t % s.capacity];
      pops != [] && pops[|pops| - 1].ticket != v && pops[|pops| - 1].item == s.items[v]
  {
    var i, m := t % s.capacity, s;
    steps := [];
    assert SlotInv(s, i);
    if s.slots[i].Full? { steps, m := EmptyNext(s, i); }
    assert SlotInv(m, i);
    v := if t == NextPop(m, i) then u else t;
    SlotInRange(m, v);
    var filled := Do(m, Fill(v));
    StepHolds(m, Fill(v));
    assert PopsInOrder(filled);
    var more;
    more, s' := EmptyNext(filled, i);
    RunsOne(m, Fill(v));
    RunsConcat(m, [Fill(v)], filled, more, s');
    RunsConcat(s, steps, m, [Fill(v)] + more, s');
    steps := steps + ([Fill(v)] + more);
  }
}
