/** Orders, trades and the enumerations shared by every component. */
module Orders {

  datatype Side = Buy | Sell {
    function Opposite(): Side { if Buy? then Sell else Buy }
  }

  datatype OrderType = Limit | Market | IOC | FOK

  datatype Status = Pending | PartialFilled | Filled | Cancelled | Rejected

  /** The value of an order's trading fields at one moment. */
  datatype Ord = Ord(id: nat, user: nat, instrument: nat, side: Side, typ: OrderType,
                     price: int, quantity: int, filled: int, remaining: int,
                     status: Status, timestamp: int, sequence: nat) {
    predicate Active() { status.Pending? || status.PartialFilled? }
    predicate IsFilled() { remaining == 0 || status.Filled? }
  }

  datatype Trade = Trade(buyId: nat, sellId: nat, buyUser: nat, sellUser: nat, instrument: nat,
                         price: int, quantity: int, timestamp: int, sequence: nat, takerBuy: bool)

  /** An order is also a node of the book: it carries the tree links, the colour and the links
      of the list of orders at its price. Only the fields below that are `var` ever change. */
  class Order {
    const id: nat
    const user: nat
    const instrument: nat
    const side: Side
    const typ: OrderType
    const price: int
    const quantity: int
    var filled: int
    var remaining: int
    var status: Status
    var timestamp: int
    var sequence: nat

    var left: Order?
    var right: Order?
    var parent: Order?
    var red: bool

    var prev: Order?
    var next: Order?

    constructor (id: nat, user: nat, instrument: nat, side: Side, price: int, quantity: int,
                 typ: OrderType, now: int)
      ensures View() == Ord(id, user, instrument, side, typ, price, quantity, 0, quantity, Pending, now, 0)
      ensures left == right == parent == prev == next == null && red
    {
      this.id, this.user, this.instrument, this.side := id, user, instrument, side;
      this.price, this.quantity, this.typ := price, quantity, typ;
      filled, remaining, status, timestamp, sequence := 0, quantity, Pending, now, 0;
      left, right, parent, red, prev, next := null, null, null, true, null, null;
    }

    /** The sentinel that stands for every missing child of one tree. */
    constructor Nil()
      ensures left == this && right == this && parent == this && !red
    {
      id, user, instrument, side, price, quantity, typ := 0, 0, 0, Buy, 0, 0, Limit;
      filled, remaining, status, timestamp, sequence := 0, 0, Pending, 0, 0;
      left, right, parent, red, prev, next := this, this, this, false, null, null;
    }

    function View(): Ord
      reads this`filled, this`remaining, this`status, this`timestamp, this`sequence
    {
      Ord(id, user, instrument, side, typ, price, quantity, filled, remaining, status, timestamp, sequence)
    }
  }
}
