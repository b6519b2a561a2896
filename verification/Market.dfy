/** The market as a value, and one step of the matching engine on it. */
module Market {
  import opened Orders
  import opened Priority
  import opened PriceLevels
  import opened Matching

  /** One side of the book: its queue, best order first, the level totals the book keeps, and, for the
      record, the volume traded at each level since the level was created. */
  datatype Half = Half(queue: seq<Ord>, totals: map<int, int>, since: map<int, int>)

  /** `owned` are the keys of the engine's order map. `tape` and `done` are records: every trade made, and
      every accepted order that has left the engine, as it was when it left. */
  datatype State = State(bids: Half, asks: Half, owned: set<nat>, users: map<nat, seq<nat>>,
                         count: nat, volume: int, sequence: nat, tick: nat,
                         tape: seq<Trade>, done: seq<Ord>) {
    function Side(side: Side): Half { if side.Buy? then bids else asks }
    function WithSide(side: Side, h: Half): State { if side.Buy? then this.(bids := h) else this.(asks := h) }
  }

  /** What the market depends on but does not change: the instrument and the readings of the clock. */
  datatype World = World(instrument: nat, clock: nat -> int)

  const EMPTY_HALF := Half([], map[], map[])
  const EMPTY := State(EMPTY_HALF, EMPTY_HALF, {}, map[], 0, 0, 0, 0, [], [])

  // ---- Level totals -----------------------------------------------------------------------

  function AddTo(t: map<int, int>, p: int, q: int): map<int, int> {
    t[p := (if p in t then t[p] else 0) + q]
  }

  /** A level's total never goes below zero, and a level at zero is erased. */
  function TakeFrom(t: map<int, int>, p: int, q: int): map<int, int> {
    var v := (if p in t then t[p] else 0) - q;
    if v <= 0 then t - {p} else t[p := v]
  }

  function TakeAll(t: map<int, int>, gone: seq<Ord>): map<int, int> {
    if gone == [] then t
    else
      var last := gone[|gone| - 1];
      TakeFrom(TakeAll(t, gone[..|gone| - 1]), last.price, last.remaining)
  }

  function AddFills(t: map<int, int>, f: seq<Fill>): map<int, int> {
    if f == [] then t
    else
      var last := f[|f| - 1];
      AddTo(AddFills(t, f[..|f| - 1]), last.maker.price, last.quantity)
  }

  function Restricted(t: map<int, int>, ps: set<int>): map<int, int> {
    map p | p in t && p in ps :: t[p]
  }

  function WithOrder(buy: bool, h: Half, o: Ord): Half {
    Half(InsertAt(h.queue, Position(buy, OrdKeys(h.queue), Key(o.price, o.timestamp)), o),
         AddTo(h.totals, o.price, o.remaining),
         if o.price in h.totals then h.since else h.since[o.price := 0])
  }

  function WithoutOrder(h: Half, i: nat): Half
    requires i < |h.queue|
  {
    var totals := TakeFrom(h.totals, h.queue[i].price, h.queue[i].remaining);
    Half(Without(h.queue, i), totals, Restricted(h.since, totals.Keys))
  }

  /** `quantity` of the `i`-th order is traded: its level is not told. */
  function WithTrade(h: Half, i: nat, quantity: int): Half
    requires i < |h.queue|
  {
    h.(queue := h.queue[i := Traded(h.queue[i], quantity)], since := AddTo(h.since, h.queue[i].price, quantity))
  }

  /** The book changes what the `i`-th order has remaining, and its level with it. */
  function WithQuantity(h: Half, i: nat, quantity: int): Half
    requires i < |h.queue|
  {
    var p := h.queue[i].price;
    var total := (if p in h.totals then h.totals[p] else 0) - h.queue[i].remaining + quantity;
    h.(queue := h.queue[i := h.queue[i].(remaining := quantity)],
       totals := if p in h.totals then h.totals[p := if total < 0 then 0 else total] else h.totals)
  }

  function AfterMatch(h: Half, out: Outcome): Half {
    var totals := TakeAll(h.totals, out.gone);
    Half(out.book, totals, Restricted(AddFills(h.since, out.fills), totals.Keys))
  }

  // ---- The engine's own indexes -----------------------------------------------------------

  function AddId(users: map<nat, seq<nat>>, user: nat, id: nat): map<nat, seq<nat>> {
    users[user := (if user in users then users[user] else []) + [id]]
  }

  function Strip(s: seq<nat>, id: nat): seq<nat> {
    if s == [] then [] else Strip(s[..|s| - 1], id) + if s[|s| - 1] == id then [] else [s[|s| - 1]]
  }

  function DropId(users: map<nat, seq<nat>>, user: nat, id: nat): map<nat, seq<nat>> {
    if user !in users then users
    else
      var ids := Strip(users[user], id);
      if ids == [] then users - {user} else users[user := ids]
  }

  function DropAll(users: map<nat, seq<nat>>, gone: seq<Ord>): map<nat, seq<nat>> {
    if gone == [] then users
    else
      var last := gone[|gone| - 1];
      DropId(DropAll(users, gone[..|gone| - 1]), last.user, last.id)
  }

  function Disown(owned: set<nat>, gone: seq<Ord>): set<nat> {
    owned - set i | 0 <= i < |gone| :: gone[i].id
  }

  // ---- Trades -----------------------------------------------------------------------------

  /** The record of one fill. The taker is recognised by its larger sequence number. */
  function TradeOf(instrument: nat, taker: Ord, f: Fill, sequence: nat, now: int): Trade {
    var buy, sell := if taker.side.Buy? then taker else f.maker, if taker.side.Buy? then f.maker else taker;
    Trade(buy.id, sell.id, buy.user, sell.user, instrument, f.maker.price, f.quantity, now, sequence,
          buy.sequence > sell.sequence)
  }

  function TradesOf(w: World, taker: Ord, f: seq<Fill>, sequence: nat, tick: nat): seq<Trade> {
    seq(|f|, i requires 0 <= i < |f| =>
      TradeOf(w.instrument, taker, f[i], sequence + 1 + i, w.clock(tick + i)))
  }

  // ---- Steps ------------------------------------------------------------------------------

  predicate Acceptable(w: World, o: Ord) {
    o.instrument == w.instrument && o.quantity > 0 && (o.price > 0 || !o.typ.Limit?)
  }

  /** An accepted order gets the next sequence number and the current time. */
  function Arrived(w: World, s: State, o: Ord): Ord {
    o.(sequence := s.sequence + 1, timestamp := w.clock(s.tick))
  }

  function MatchOf(w: World, s: State, o: Ord): Outcome {
    Match(Classic, Arrived(w, s, o), s.Side(o.side.Opposite()).queue, MAX_ITERATIONS)
  }

  /** The trades recorded for an order's fills. */
  function Printed(w: World, s: State, o: Ord, f: seq<Fill>): seq<Trade> {
    TradesOf(w, Arrived(w, s, o), f, s.sequence + 1, s.tick + 1)
  }

  /** The trades the loop makes, in order. */
  function NewTrades(w: World, s: State, o: Ord): seq<Trade> { Printed(w, s, o, MatchOf(w, s, o).fills) }

  /** The order as it leaves the matching loop. */
  function TakerAfter(w: World, s: State, o: Ord): Ord {
    if o.remaining == 0 then Arrived(w, s, o) else Settled(MatchOf(w, s, o).taker)
  }

  /** The market once the loop has done `out` for the order. */
  function AfterTrades(w: World, s: State, o: Ord, out: Outcome): State {
    var side := o.side.Opposite();
    s.WithSide(side, AfterMatch(s.Side(side), out))
     .(owned := Disown(s.owned, out.gone), users := DropAll(s.users, out.gone),
       count := s.count + |out.fills|, volume := s.volume + Volume(out.fills),
       sequence := s.sequence + 1 + |out.fills|, tick := s.tick + 1 + |out.fills|,
       tape := s.tape + Printed(w, s, o, out.fills),
       done := s.done + out.gone)
  }

  /** The market after the matching loop. */
  function Matched(w: World, s: State, o: Ord): State {
    AfterTrades(w, s, o, MatchOf(w, s, o))
  }

  /** Whether an order wants to rest in the book. */
  predicate Rests(o: Ord) { o.Active() && o.typ.Limit? && o.remaining > 0 }

  predicate HasId(q: seq<Ord>, id: nat) { exists i :: 0 <= i < |q| && q[i].id == id }

  function Placed(s: State, o: Ord): State {
    if !Rests(o) then s.(done := s.done + [o])
    else if o.id !in s.owned then
      s.WithSide(o.side, WithOrder(o.side.Buy?, s.Side(o.side), o))
       .(owned := s.owned + {o.id}, users := AddId(s.users, o.user, o.id))
    else if !HasId(s.Side(o.side).queue, o.id) then s.WithSide(o.side, WithOrder(o.side.Buy?, s.Side(o.side), o))
    else s
  }

  function Process(w: World, s: State, o: Ord): State {
    if !Acceptable(w, o) then s else Placed(Matched(w, s, o), TakerAfter(w, s, o))
  }

  /** Nobody at the order's price was stamped later. */
  predicate NoLater(q: seq<Ord>, o: Ord) {
    forall i :: 0 <= i < |q| && q[i].price == o.price ==> q[i].timestamp <= o.timestamp
  }

  function IndexOf(q: seq<Ord>, id: nat): (i: nat)
    requires HasId(q, id)
    ensures i < |q| && q[i].id == id
  {
    if q[|q| - 1].id == id then |q| - 1 else IndexOf(q[..|q| - 1], id)
  }

  function Removed(s: State, side: Side, i: nat): State
    requires i < |s.Side(side).queue|
  {
    var o := s.Side(side).queue[i];
    s.WithSide(side, WithoutOrder(s.Side(side), i))
     .(owned := s.owned - {o.id}, users := DropId(s.users, o.user, o.id), done := s.done + [o.(status := Cancelled)])
  }

  predicate Cancellable(o: Ord, user: nat) { o.user == user && o.Active() }

  function Cancel(s: State, id: nat, user: nat): State {
    if id !in s.owned then s
    else if HasId(s.bids.queue, id) then
      var i := IndexOf(s.bids.queue, id);
      if Cancellable(s.bids.queue[i], user) then Removed(s, Buy, i) else s
    else if HasId(s.asks.queue, id) then
      var i := IndexOf(s.asks.queue, id);
      if Cancellable(s.asks.queue[i], user) then Removed(s, Sell, i) else s
    else s
  }

  function CancelEach(s: State, ids: seq<nat>, user: nat): State {
    if ids == [] then s else Cancel(CancelEach(s, ids[..|ids| - 1], user), ids[|ids| - 1], user)
  }

  function CancelAll(s: State, user: nat): State {
    if user in s.users then CancelEach(s, s.users[user], user) else s
  }
}
