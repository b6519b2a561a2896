/** A user's position and its average opening price, kept in whole ticks. */
module Positions {

  datatype Trade = Trade(buy: bool, size: int, price: int, open: bool)

  datatype Holding = Holding(size: int, long: int, short: int, average: int)

  const FLAT := Holding(0, 0, 0, 0)

  function Abs(x: int): nat { if x < 0 then -x else x }

  /** Division as the machine does it, towards zero. */
  function Quotient(a: int, b: int): int
    requires b > 0
  {
    if a < 0 then -((-a) / b) else a / b
  }

  function Blended(average: int, held: nat, price: int, size: int): int {
    if held + size > 0 then Quotient(average * held + price * size, held + size) else price
  }

  /** The average after an opening trade. */
  function AverageAfter(h: Holding, t: Trade): int {
    var along := (t.buy && h.size >= 0) || (!t.buy && h.size <= 0);
    if along then Blended(h.average, Abs(h.size), t.price, t.size)
    else if Abs(h.size) >= t.size then h.average
    else t.price
  }

  function Less(x: int, y: int): int { if x - y > 0 then x - y else 0 }

  function Updated(h: Holding, t: Trade): Holding {
    var long := if t.buy && t.open then h.long + t.size else if !t.buy && !t.open then Less(h.long, t.size) else h.long;
    var short := if !t.buy && t.open then h.short + t.size else if t.buy && !t.open then Less(h.short, t.size)
      else h.short;
    Holding(long - short, long, short, if t.open then AverageAfter(h, t) else h.average)
  }

  class Position {
    var size: int
    var longSize: int
    var shortSize: int
    var avgOpenPrice: int

    constructor ()
      ensures View() == FLAT
    {
      size, longSize, shortSize, avgOpenPrice := 0, 0, 0, 0;
    }

    function View(): Holding
      reads this
    {
      Holding(size, longSize, shortSize, avgOpenPrice)
    }

    method UpdatePosition(buy: bool, tradeSize: int, tradePrice: int, open: bool)
      modifies this
      ensures View() == Updated(old(View()), Trade(buy, tradeSize, tradePrice, open))
    {
      if open {
        if buy {
          longSize := longSize + tradeSize;
          if size >= 0 {
            var totalCost := avgOpenPrice * Abs(size) + tradePrice * tradeSize;
            var totalSize := Abs(size) + tradeSize;
            avgOpenPrice := if totalSize > 0 then Quotient(totalCost, totalSize) else tradePrice;
          } else if Abs(size) < tradeSize {
            avgOpenPrice := tradePrice;
          }
        } else {
          shortSize := shortSize + tradeSize;
          if size <= 0 {
            var totalCost := avgOpenPrice * Abs(size) + tradePrice * tradeSize;
            var totalSize := Abs(size) + tradeSize;
            avgOpenPrice := if totalSize > 0 then Quotient(totalCost, totalSize) else tradePrice;
          } else if size < tradeSize {
            avgOpenPrice := tradePrice;
          }
        }
      } else {
        if buy {
          shortSize := Less(shortSize, tradeSize);
        } else {
          longSize := Less(longSize, tradeSize);
        }
      }
      size := longSize - shortSize;
    }
  }

  // ---- Bounds -----------------------------------------------------------------------------

  function Run(ts: seq<Trade>): Holding {
    if ts == [] then FLAT else Updated(Run(ts[..|ts| - 1]), ts[|ts| - 1])
  }

  ghost predicate Sized(ts: seq<Trade>) { forall i :: 0 <= i < |ts| ==> ts[i].size >= 0 }

  /** Every opening price of the run lies between `lo` and `hi`. */
  ghost predicate OpensWithin(ts: seq<Trade>, lo: int, hi: int) {
    forall i :: 0 <= i < |ts| && ts[i].open ==> lo <= ts[i].price <= hi
  }

  ghost predicate Opened(ts: seq<Trade>) { exists i :: 0 <= i < |ts| && ts[i].open }

  lemma {:induction false} TimesMonotone(a: int, b: int, n: nat)
    requires a <= b
    ensures a * n <= b * n && (a < b ==> a * n + n <= b * n)
    decreases n
  {
    if n > 0 { TimesMonotone(a, b, n - 1); }
  }

  /** A quotient lies between whole bounds of the fraction. */
  lemma QuotientWithin(a: int, b: int, lo: int, hi: int)
    requires b > 0 && lo * b <= a <= hi * b
    ensures lo <= Quotient(a, b) <= hi
  {
    if a < 0 {
      DivideBelow(-a, b, -hi);
      DivideAbove(-a, b, -lo);
    } else {
      DivideBelow(a, b, lo);
      DivideAbove(a, b, hi);
    }
  }

  lemma DivideAbove(a: nat, b: nat, hi: int)
    requires b > 0 && a <= hi * b
    ensures a / b <= hi
  {
    if a / b > hi { TimesMonotone(hi, a / b, b); }
  }

  lemma DivideBelow(a: nat, b: nat, lo: int)
    requires b > 0 && lo * b <= a
    ensures lo <= a / b
  {
    if a / b < lo { TimesMonotone(a / b, lo, b); }
  }

  lemma BlendedWithin(average: int, held: nat, price: int, size: nat, lo: int, hi: int)
    requires lo <= price <= hi && (held > 0 ==> lo <= average <= hi)
    ensures lo <= Blended(average, held, price, size) <= hi
  {
    if held + size > 0 {
      TimesMonotone(lo, price, size);
      TimesMonotone(price, hi, size);
      if held > 0 {
        TimesMonotone(lo, average, held);
        TimesMonotone(average, hi, held);
      }
      assert lo * (held + size) == lo * held + lo * size && hi * (held + size) == hi * held + hi * size;
      QuotientWithin(average * held + price * size, held + size, lo, hi);
    }
  }

  /** The average never leaves the range of the opening prices so far, whatever was opened, closed,
      reduced or flipped. */
  lemma {:induction false} AverageWithinOpens(ts: seq<Trade>, lo: int, hi: int)
    requires Sized(ts) && OpensWithin(ts, lo, hi)
    ensures Opened(ts) ==> lo <= Run(ts).average <= hi
    ensures Run(ts).long >= 0 && Run(ts).short >= 0 && Run(ts).size == Run(ts).long - Run(ts).short
    ensures !Opened(ts) ==> Run(ts) == FLAT
  {
    if ts != [] {
      var init, t, h := ts[..|ts| - 1], ts[|ts| - 1], Run(ts[..|ts| - 1]);
      AverageWithinOpens(init, lo, hi);
      assert Opened(init) ==> Opened(ts);
      if t.open {
        assert ts[|ts| - 1].open;
        BlendedWithin(h.average, Abs(h.size), t.price, t.size, lo, hi);
      } else if Opened(ts) {
        var i :| 0 <= i < |ts| && ts[i].open;
        assert init[i].open;
      }
    }
  }

  // ---- Legs -------------------------------------------------------------------------------

  /** A closing trade takes what it can of the other direction's leg, and touches neither the other leg nor the
      average: a sell closes the long leg, a buy the short one. */
  lemma ClosingTells(h: Holding, t: Trade)
    requires !t.open && t.size >= 0 && h.long >= 0 && h.short >= 0
    ensures var h' := Updated(h, t);
      && h'.average == h.average && h'.size == h'.long - h'.short
      && (t.buy ==> h'.long == h.long && h'.short == h.short - if t.size < h.short then t.size else h.short)
      && (!t.buy ==> h'.short == h.short && h'.long == h.long - if t.size < h.long then t.size else h.long)
  {
  }

  /** An opening trade adds to the leg of its direction. Against the position it keeps the average while it does not
      flip, and sets it to its price when it does; from flat it sets it to its price. */
  lemma OpeningTells(h: Holding, t: Trade)
    requires t.open && t.size > 0 && h.size == h.long - h.short
    ensures var h' := Updated(h, t);
      && (t.buy ==> h'.long == h.long + t.size && h'.short == h.short && h'.size == h.size + t.size)
      && (!t.buy ==> h'.short == h.short + t.size && h'.long == h.long && h'.size == h.size - t.size)
      && (t.buy && h.size < 0 ==> h'.average == if h'.size <= 0 then h.average else t.price)
      && (!t.buy && h.size > 0 ==> h'.average == if h'.size >= 0 then h.average else t.price)
      && (h.size == 0 && t.price >= 0 ==> h'.average == t.price)
  {
    if h.size == 0 && t.price >= 0 {
      assert h.average * Abs(h.size) == 0;
      FirstOpening(t.price, t.size);
    }
  }

  /** Along the position the new average is the weighted one, rounded towards zero. */
  lemma AlongTells(h: Holding, t: Trade)
    requires t.open && t.size > 0 && if t.buy then h.size >= 0 else h.size <= 0
    ensures var a, held := Updated(h, t).average, if h.size < 0 then -h.size else h.size;
      var n, cost := held + t.size, h.average * held + t.price * t.size;
      if cost >= 0 then a * n <= cost < a * n + n else a * n - n < cost <= a * n
  {
    var held: nat := if h.size < 0 then -h.size else h.size;
    var n, cost := held + t.size, h.average * held + t.price * t.size;
    if cost >= 0 { RoundedDown(cost, n); } else { RoundedUp(-cost, n); }
  }

  lemma RoundedUp(cost: nat, size: nat)
    requires size > 0 && cost > 0
    ensures var q := Quotient(-(cost as int), size); q * size - size < -(cost as int) <= q * size
  {
    RoundedDown(cost, size);
    var q: int := cost / size;
    assert Quotient(-(cost as int), size) == -q && -q * size == -(q * size);
  }

  /** What was traded in one direction, to open or to close. */
  ghost function Traded(ts: seq<Trade>, buy: bool, open: bool): int {
    if ts == [] then 0
    else
      var t := ts[|ts| - 1];
      Traded(ts[..|ts| - 1], buy, open) + if t.buy == buy && t.open == open then t.size else 0
  }

  /** What is left of the leg opened in one direction. */
  ghost function Leg(ts: seq<Trade>, buy: bool): int { Traded(ts, buy, true) - Traded(ts, !buy, false) }

  /** No closing trade exceeds the leg it closes. */
  ghost predicate NeverOverclosed(ts: seq<Trade>) {
    forall i :: 0 <= i < |ts| && !ts[i].open ==> ts[i].size <= Leg(ts[..i], !ts[i].buy)
  }

  /** Then each leg is what was opened less what was closed of it. */
  lemma {:induction false} LegsTell(ts: seq<Trade>)
    requires Sized(ts) && NeverOverclosed(ts)
    ensures Run(ts).long == Leg(ts, true) >= 0 && Run(ts).short == Leg(ts, false) >= 0
    ensures Run(ts).size == Leg(ts, true) - Leg(ts, false)
  {
    if ts != [] {
      var init, t := ts[..|ts| - 1], ts[|ts| - 1];
      assert forall i :: 0 <= i < |init| ==> init[i] == ts[i] && init[..i] == ts[..i];
      LegsTell(init);
    }
  }

  // ---- Rounding ---------------------------------------------------------------------------

  ghost function Sizes(ts: seq<Trade>): int { if ts == [] then 0 else Sizes(ts[..|ts| - 1]) + ts[|ts| - 1].size }

  ghost function Costs(ts: seq<Trade>): int {
    if ts == [] then 0 else Costs(ts[..|ts| - 1]) + ts[|ts| - 1].price * ts[|ts| - 1].size
  }

  /** Openings in one direction, of positive size at prices not below zero. */
  ghost predicate OneWay(ts: seq<Trade>, buy: bool) {
    forall i :: 0 <= i < |ts| ==> ts[i].open && ts[i].buy == buy && ts[i].size > 0 && ts[i].price >= 0
  }

  lemma RoundedDown(cost: nat, size: nat)
    requires size > 0
    ensures Quotient(cost, size) * size <= cost < Quotient(cost, size) * size + size
  {
  }

  /** After `n` openings in one direction from flat, the average is never above the true weighted average
      and at most `n - 1` ticks below it. */
  lemma {:induction false} AverageLags(ts: seq<Trade>, buy: bool)
    requires OneWay(ts, buy)
    ensures var h := Run(ts);
      && h.size == (if buy then Sizes(ts) else -Sizes(ts)) && Sizes(ts) >= 0 && (ts != [] ==> Sizes(ts) > 0)
      && h.average >= 0 && h.average * Sizes(ts) <= Costs(ts)
      && (ts != [] ==> Costs(ts) <= h.average * Sizes(ts) + (|ts| - 1) * Sizes(ts))
  {
    if ts != [] {
      var init, t := ts[..|ts| - 1], ts[|ts| - 1];
      AverageLags(init, buy);
      assert OneWay(init, buy) && ts[|ts| - 1].open;
      LagStep(Run(init).average, Sizes(init), Costs(init), |init|, t.price, t.size);
      OneWayHolding(init, buy);
    }
  }

  lemma {:induction false} OneWayHolding(ts: seq<Trade>, buy: bool)
    requires OneWay(ts, buy)
    ensures Run(ts).long == (if buy then Sizes(ts) else 0) && Run(ts).short == (if buy then 0 else Sizes(ts))
  {
    if ts != [] {
      OneWayHolding(ts[..|ts| - 1], buy);
      assert ts[|ts| - 1].open;
    }
  }

  /** One more opening adds less than a tick to the lag. */
  lemma LagStep(average: nat, size: nat, cost: int, n: nat, price: nat, more: nat)
    requires more > 0 && average * size <= cost && (n == 0 ==> size == 0 && cost == 0)
    requires n > 0 ==> cost <= average * size + (n - 1) * size
    ensures var a, s, c := Blended(average, size, price, more), size + more, cost + price * more;
      a >= 0 && a * s <= c && c <= a * s + n * s
  {
    var s := size + more;
    Products(average, size, price, more, n);
    RoundedDown(average * size + price * more, s);
    if n == 0 { FirstOpening(price, more); }
  }

  lemma Products(average: nat, size: nat, price: nat, more: nat, n: nat)
    ensures average * size >= 0 && price * more >= 0
    ensures n > 0 ==> n * (size + more) >= (n - 1) * size + (size + more)
  {
    if n > 0 {
      TimesMonotone(size, size + more, n - 1);
      assert (n - 1) * size == size * (n - 1) && n * (size + more) == (size + more) * (n - 1) + (size + more);
    }
  }

  lemma FirstOpening(price: nat, more: nat)
    requires more > 0
    ensures Quotient(price * more, more) == price
  {
    assert price * more >= 0;
    DivideAbove(price * more, more, price);
    DivideBelow(price * more, more, price);
  }
}
