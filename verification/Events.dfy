/** Events and their text form in the log. */
module Events {
  import opened Orders
  import opened Text

  /** What an event says. `Unlisted` is what the reader takes in though nothing writes it: an event of another type,
      without a body, or one with an enumeration whose code names no member. */
  datatype Payload =
    | OrderPlaced(order: nat, user: nat, side: Side, typ: OrderType, price: int, quantity: int)
    | OrderMatched(taker: nat, maker: nat, price: int, quantity: int)
    | OrderCancelled(order: nat, user: nat, before: Status, after: Status)
    | OrderRejected(order: nat, user: nat, reason: string)
    | TradeExecuted(trade: Trade)
    | Unlisted(code: nat, numbers: seq<int>)

  datatype Event = Event(payload: Payload, sequence: nat, timestamp: int, instrument: nat)

  const REASON_SIZE: nat := 256

  // ---- Codes ------------------------------------------------------------------------------

  function TypeCode(p: Payload): nat {
    match p
    case OrderPlaced(_, _, _, _, _, _) => 0
    case OrderMatched(_, _, _, _) => 1
    case OrderCancelled(_, _, _, _) => 2
    case OrderRejected(_, _, _) => 3
    case TradeExecuted(_) => 4
    case Unlisted(code, _) => code
  }

  function SideCode(s: Side): nat { if s.Buy? then 0 else 1 }

  function OrderTypeCode(t: OrderType): nat {
    match t case Limit => 0 case Market => 1 case IOC => 2 case FOK => 3
  }

  function StatusCode(s: Status): nat {
    match s case Pending => 0 case PartialFilled => 1 case Filled => 2 case Cancelled => 3 case Rejected => 4
  }

  function SideOf(n: int): Option<Side> { if n == 0 then Some(Buy) else if n == 1 then Some(Sell) else None }

  function OrderTypeOf(n: int): Option<OrderType> {
    if n == 0 then Some(Limit) else if n == 1 then Some(Market) else if n == 2 then Some(IOC)
    else if n == 3 then Some(FOK) else None
  }

  function StatusOf(n: int): Option<Status> {
    if n == 0 then Some(Pending) else if n == 1 then Some(PartialFilled) else if n == 2 then Some(Filled)
    else if n == 3 then Some(Cancelled) else if n == 4 then Some(Rejected) else None
  }

  // ---- Writing ----------------------------------------------------------------------------

  function TradeNumbers(t: Trade): (r: seq<int>)
    ensures |r| == 10
  {
    [t.buyId, t.sellId, t.buyUser, t.sellUser, t.instrument, t.price, t.quantity, t.timestamp, t.sequence,
     if t.takerBuy then 1 else 0]
  }

  /** The numbers of an event's own fields; a rejection's reason follows them as text. */
  function BodyNumbers(p: Payload): seq<int> {
    match p
    case OrderPlaced(o, u, s, t, price, q) => [o, u, SideCode(s), OrderTypeCode(t), price, q]
    case OrderMatched(taker, maker, price, q) => [taker, maker, price, q]
    case OrderCancelled(o, u, before, after) => [o, u, StatusCode(before), StatusCode(after)]
    case OrderRejected(o, u, _) => [o, u]
    case TradeExecuted(t) => TradeNumbers(t)
    case Unlisted(_, numbers) => numbers
  }

  function Header(e: Event): seq<int> { [TypeCode(e.payload), e.sequence, e.timestamp, e.instrument] }

  function Body(p: Payload): string {
    if p.OrderRejected? then Join(BodyNumbers(p)) + "," + p.reason else Join(BodyNumbers(p))
  }

  /** The record of an event, with its enumerations printed as numbers. */
  function Serialize(e: Event): string { Join(Header(e)) + "," + Body(e.payload) }

  /** The record as the program prints it: an enumeration goes out as the character with its code. */
  function SerializeRaw(e: Event): string {
    [CodeChar(TypeCode(e.payload))] + "," + Join(Header(e)[1..]) + "," + RawBody(e.payload)
  }

  function CodeChar(code: nat): char { (code % 256) as char }

  function RawBody(p: Payload): string {
    match p
    case OrderPlaced(o, u, s, t, price, q) =>
      Join([o, u]) + "," + [CodeChar(SideCode(s))] + "," + [CodeChar(OrderTypeCode(t))] + "," + Join([price, q])
    case OrderCancelled(o, u, before, after) =>
      Join([o, u]) + "," + [CodeChar(StatusCode(before))] + "," + [CodeChar(StatusCode(after))]
    case _ => Body(p)
  }

  // ---- Reading ----------------------------------------------------------------------------

  /** The reason field holds at most 255 characters, none of them the terminator. */
  function Truncated(s: string): string {
    var n := Find(s, 0 as char);
    s[..if n < REASON_SIZE then n else REASON_SIZE - 1]
  }

  predicate AllFit(fs: seq<Field>, xs: seq<int>) { |xs| == |fs| && forall i :: 0 <= i < |fs| ==> Fits(fs[i], xs[i]) }

  function AllFitted(fs: seq<Field>, xs: seq<int>): Option<seq<int>>
    requires |xs| == |fs|
  {
    if fs == [] then Some([])
    else
      match (Fitted(fs[0], xs[0]), AllFitted(fs[1..], xs[1..]))
      case (Some(y), Some(ys)) => Some([y] + ys)
      case _ => None
  }

  const HEADER: seq<Field> := [Code, Wide, Signed, Narrow]

  /** The fields of a body. */
  function Fields(code: int): seq<Field> {
    if code == 0 then [Wide, Wide, Code, Code, Signed, Signed]
    else if code == 1 then [Wide, Wide, Signed, Signed]
    else if code == 2 then [Wide, Wide, Code, Code]
    else if code == 3 then [Wide, Wide]
    else if code == 4 then [Wide, Wide, Wide, Wide, Narrow, Signed, Signed, Signed, Wide, Wide]
    else []
  }

  function PlacedOf(x: seq<int>): Payload
    requires AllFit(Fields(0), x)
  {
    match (SideOf(x[2]), OrderTypeOf(x[3]))
    case (Some(s), Some(t)) => OrderPlaced(x[0], x[1], s, t, x[4], x[5])
    case _ => Unlisted(0, x)
  }

  function CancelledOf(x: seq<int>): Payload
    requires AllFit(Fields(2), x)
  {
    match (StatusOf(x[2]), StatusOf(x[3]))
    case (Some(b), Some(a)) => OrderCancelled(x[0], x[1], b, a)
    case _ => Unlisted(2, x)
  }

  function PayloadOf(code: nat, x: seq<int>, r: Reader): Payload
    requires AllFit(Fields(code), x)
  {
    if code == 0 then PlacedOf(x)
    else if code == 1 then OrderMatched(x[0], x[1], x[2], x[3])
    else if code == 2 then CancelledOf(x)
    else if code == 3 then OrderRejected(x[0], x[1], Truncated(Next(r, '\n').field))
    else if code == 4 then TradeExecuted(Trade(x[0], x[1], x[2], x[3], x[4], x[5], x[6], x[7], x[8], x[9] == 1))
    else Unlisted(code, [])
  }

  /** The numbers of the next fields, as they are stored. */
  function ReadFields(r: Reader, fs: seq<Field>): (k: Numbers)
    ensures k.Numbers? ==> AllFit(fs, k.values)
  {
    match ReadInts(r, |fs|)
    case Unreadable => Unreadable
    case Numbers(xs, r') =>
      FittedFit(fs, xs);
      match AllFitted(fs, xs) case None => Unreadable case Some(ys) => Numbers(ys, r')
  }

  /** None where a parser throws: no number where there should be one, or one that does not fit a word. */
  function Deserialize(s: string): Option<Event> {
    match ReadFields(Reader(s, false, ""), HEADER)
    case Unreadable => None
    case Numbers(h, r) =>
      assert Fits(HEADER[0], h[0]) && Fits(HEADER[1], h[1]) && Fits(HEADER[3], h[3]);
      match ReadFields(r, Fields(h[0]))
      case Unreadable => None
      case Numbers(x, r') => Some(Event(PayloadOf(h[0], x, r'), h[1], h[2], h[3]))
  }

  lemma {:induction false} FittedFit(fs: seq<Field>, xs: seq<int>)
    requires |xs| == |fs|
    ensures AllFitted(fs, xs).Some? ==> AllFit(fs, AllFitted(fs, xs).value)
  {
    if fs != [] && AllFitted(fs, xs).Some? {
      FittedFit(fs[1..], xs[1..]);
      FitMore(fs, Fitted(fs[0], xs[0]).value, AllFitted(fs[1..], xs[1..]).value);
    }
  }

  lemma FitMore(fs: seq<Field>, y: int, ys: seq<int>)
    requires fs != [] && Fits(fs[0], y) && AllFit(fs[1..], ys)
    ensures AllFit(fs, [y] + ys)
  {
    assert forall i :: 1 <= i < |fs| ==> fs[i] == fs[1..][i - 1] && ([y] + ys)[i] == ys[i - 1];
  }

  lemma {:induction false} FitUnchanged(fs: seq<Field>, xs: seq<int>)
    requires AllFit(fs, xs)
    ensures AllFitted(fs, xs) == Some(xs)
  {
    if fs != [] {
      FitUnchanged(fs[1..], xs[1..]);
      assert xs == [xs[0]] + xs[1..];
    }
  }

  // ---- Round trip -------------------------------------------------------------------------

  /** A reason that survives: one line, no terminator, within the field. */
  predicate Clean(p: Payload) {
    p.OrderRejected? ==>
      |p.reason| < 256 && forall i :: 0 <= i < |p.reason| ==> p.reason[i] != '\n' && p.reason[i] != 0 as char
  }

  /** Every number is of the type of its field, and what is unlisted is really so. */
  predicate Proper(e: Event) {
    && AllFit(HEADER, Header(e)) && AllFit(Fields(TypeCode(e.payload)), BodyNumbers(e.payload))
    && (e.payload.Unlisted? ==> PayloadOf(e.payload.code, e.payload.numbers, Reader("", true, "")) == e.payload)
  }

  /** An event as it comes back: a reason loses what follows a line break or a terminator, and what its field does not
      hold. */
  function AsRead(e: Event): Event {
    if e.payload.OrderRejected? then
      e.(payload := e.payload.(reason := Truncated(e.payload.reason[..Find(e.payload.reason, '\n')])))
    else e
  }

  /** The record of each kind of event, spelt out. */
  lemma RecordTells(e: Event)
    ensures e.payload.OrderPlaced? ==>
      var p := e.payload;
      var side := if p.side.Buy? then 0 else 1;
      var typ := match p.typ case Limit => 0 case Market => 1 case IOC => 2 case FOK => 3;
      Serialize(e) == Join([0, e.sequence, e.timestamp, e.instrument]) + ","
                      + Join([p.order, p.user, side, typ, p.price, p.quantity])
    ensures e.payload.OrderMatched? ==>
      var p := e.payload;
      Serialize(e) == Join([1, e.sequence, e.timestamp, e.instrument]) + ","
        + Join([p.taker, p.maker, p.price, p.quantity])
    ensures e.payload.OrderCancelled? ==>
      var p := e.payload;
      var code := (s: Status) =>
        match s case Pending => 0 case PartialFilled => 1 case Filled => 2 case Cancelled => 3 case Rejected => 4;
      Serialize(e) == Join([2, e.sequence, e.timestamp, e.instrument]) + ","
                      + Join([p.order, p.user, code(p.before), code(p.after)])
    ensures e.payload.OrderRejected? ==>
      var p := e.payload;
      Serialize(e) == Join([3, e.sequence, e.timestamp, e.instrument]) + ","
        + (Join([p.order, p.user]) + "," + p.reason)
    ensures e.payload.TradeExecuted? ==>
      var t := e.payload.trade;
      Serialize(e) == Join([4, e.sequence, e.timestamp, e.instrument]) + ","
                      + Join([t.buyId, t.sellId, t.buyUser, t.sellUser, t.instrument, t.price, t.quantity, t.timestamp,
                              t.sequence, if t.takerBuy then 1 else 0])
  {
    if e.payload.OrderCancelled? {
      var b, a := StatusCode(e.payload.before), StatusCode(e.payload.after);
      assert StatusOf(b) == Some(e.payload.before) && StatusOf(a) == Some(e.payload.after);
    }
  }

  lemma ReadHeader(e: Event)
    requires AllFit(HEADER, Header(e))
    ensures ReadFields(Reader(Serialize(e), false, ""), HEADER)
         == Numbers(Header(e), Reader(Body(e.payload), false, ShowInt(e.instrument)))
  {
    ReadJoinedBefore(Header(e), Body(e.payload), "");
    FitUnchanged(HEADER, Header(e));
  }

  lemma ReasonRead(reason: string, field: string)
    ensures Next(Reader(reason, false, field), '\n').field == reason[..Find(reason, '\n')]
    ensures Truncated(reason[..Find(reason, '\n')]) == reason
       <==> |reason| < 256 && forall i :: 0 <= i < |reason| ==> reason[i] != '\n' && reason[i] != 0 as char
  {
    assert reason[..|reason|] == reason;
  }

  ghost predicate BodyIs(p: Payload, r: Reader) { p.OrderRejected? ==> r.rest == p.reason && !r.atEnd }

  lemma ReadBody(e: Event)
    requires AllFit(Fields(TypeCode(e.payload)), BodyNumbers(e.payload))
    ensures var field := ShowInt(e.instrument);
      match ReadFields(Reader(Body(e.payload), false, field), Fields(TypeCode(e.payload)))
      case Unreadable => false
      case Numbers(x, r) => x == BodyNumbers(e.payload) && BodyIs(e.payload, r)
  {
    var field, xs := ShowInt(e.instrument), BodyNumbers(e.payload);
    FitUnchanged(Fields(TypeCode(e.payload)), xs);
    if e.payload.OrderRejected? {
      ReadJoinedBefore(xs, e.payload.reason, field);
    } else if xs != [] {
      ReadJoined(xs, field);
    }
  }

  lemma PayloadBack(e: Event, r: Reader)
    requires Proper(e) && BodyIs(e.payload, r)
    ensures PayloadOf(TypeCode(e.payload), BodyNumbers(e.payload), r) == AsRead(e).payload
  {
    if e.payload.OrderRejected? { ReasonRead(e.payload.reason, r.field); }
  }

  /** An event is read back as `AsRead` says, whatever its reason. */
  lemma ReadsBack(e: Event)
    requires Proper(e)
    ensures Deserialize(Serialize(e)) == Some(AsRead(e))
  {
    ReadHeader(e);
    ReadBody(e);
    var k := ReadFields(Reader(Body(e.payload), false, ShowInt(e.instrument)), Fields(TypeCode(e.payload)));
    PayloadBack(e, k.reader);
  }

  /** So it is read back as it was written exactly when its reason fits. */
  lemma RoundTrip(e: Event)
    requires Proper(e)
    ensures Deserialize(Serialize(e)) == Some(e) <==> Clean(e.payload)
  {
    ReadsBack(e);
    if e.payload.OrderRejected? { ReasonRead(e.payload.reason, ""); }
  }

  lemma UnreadableFirst(r: Reader, n: nat)
    requires n > 0 && ParseInt(Next(r, ',').field) == None
    ensures ReadInts(r, n) == Unreadable
  {
  }

  lemma FirstChar(c: char, rest: string)
    requires c != ','
    ensures Next(Reader([c] + "," + rest, false, ""), ',').field == [c]
  {
    NextField([c], rest, ',', "");
  }

  /** The event is of one of the seven types the program names. */
  predicate Named(e: Event) { TypeCode(e.payload) <= 6 }

  lemma CodeNoNumber(code: nat)
    requires code <= 6
    ensures CodeChar(code) != ',' && ParseInt([CodeChar(code)]) == None
  {
    NotANumber([CodeChar(code)]);
  }

  lemma RawFirstField(e: Event)
    requires Named(e)
    ensures ParseInt(Next(Reader(SerializeRaw(e), false, ""), ',').field) == None
  {
    var c, numbers := CodeChar(TypeCode(e.payload)), Join(Header(e)[1..]);
    CodeNoNumber(TypeCode(e.payload));
    Regroup([c], ",", numbers, RawBody(e.payload));
    FirstChar(c, numbers + "," + RawBody(e.payload));
  }

  /** No record the program prints can be read by its own reader: the first field is not a number. */
  lemma RawNeverRead(e: Event)
    requires Named(e)
    ensures Deserialize(SerializeRaw(e)) == None
  {
    RawFirstField(e);
    UnreadableFirst(Reader(SerializeRaw(e), false, ""), |HEADER|);
  }
}
