/** The packed sort key of an order, and the timestamps made from sequence numbers: comparing keys is
    comparing places in the queue. */
module DeterministicCalculator {
  import opened Priority

  const MAX_PRICE: nat := 0x7FFF_FFFF_FFFF_FFFF
  const WORD: nat := 0x1_0000_0000_0000_0000
  const DOUBLE_WORD: nat := 0x1_0000_0000_0000_0000_0000_0000_0000_0000
  const BASE_TIMESTAMP: int := 1609459200000000000

  function SequenceToTimestamp(sequence: nat, base: int): int {
    (if base == 0 then BASE_TIMESTAMP else base) + sequence
  }

  function TimestampToSequence(timestamp: int, base: int): nat {
    var b := if base == 0 then BASE_TIMESTAMP else base;
    if timestamp < b then 0 else timestamp - b
  }

  /** A signed word as an unsigned double word. */
  function Widened(x: int): nat { x % DOUBLE_WORD }

  /** The price in the high word, the sequence number in the low one; a bid's price is inverted. */
  function MakeSortKey(price: int, sequence: nat, buy: bool): nat {
    (Widened(if buy then MAX_PRICE - price else price) * WORD + sequence) % DOUBLE_WORD
  }

  function CompareSortKeys(a: nat, b: nat): int { if a < b then -1 else if a > b then 1 else 0 }

  lemma SequenceBack(sequence: nat, base: int)
    ensures TimestampToSequence(SequenceToTimestamp(sequence, base), base) == sequence
  {
  }

  predicate InRange(price: int, sequence: nat) { 0 <= price <= MAX_PRICE && sequence < WORD }

  lemma KeyIs(price: int, sequence: nat, buy: bool)
    requires InRange(price, sequence)
    ensures MakeSortKey(price, sequence, buy) == (if buy then MAX_PRICE - price else price) * WORD + sequence
  {
    var high := if buy then MAX_PRICE - price else price;
    assert 0 <= high <= MAX_PRICE;
    assert high * WORD <= MAX_PRICE * WORD;
  }

  /** Comparing two packed numbers compares the high words first. */
  lemma PackedOrder(a: nat, x: nat, b: nat, y: nat)
    requires x < WORD && y < WORD
    ensures a * WORD + x < b * WORD + y <==> a < b || (a == b && x < y)
  {
  }

  /** On prices that are not negative, comparing keys orders as the book does: better price first, then
      the earlier timestamp. */
  lemma SortKeyIsPriority(buy: bool, p: int, m: nat, q: int, n: nat, base: int)
    requires InRange(p, m) && InRange(q, n)
    ensures var k, l := MakeSortKey(p, m, buy), MakeSortKey(q, n, buy);
      var a, b := Key(p, SequenceToTimestamp(m, base)), Key(q, SequenceToTimestamp(n, base));
      && (CompareSortKeys(k, l) == -1 <==> Ahead(buy, a, b))
      && (CompareSortKeys(k, l) == 1 <==> Ahead(buy, b, a))
      && (CompareSortKeys(k, l) == 0 <==> p == q && m == n)
  {
    KeyIs(p, m, buy);
    KeyIs(q, n, buy);
    var x, y := if buy then MAX_PRICE - p else p, if buy then MAX_PRICE - q else q;
    PackedOrder(x, m, y, n);
    PackedOrder(y, n, x, m);
  }

  /** A negative ask price widens to a large number: it is better than any other and sorts behind them. */
  lemma NegativeAskSortsLast(p: int, m: nat, q: int, n: nat)
    requires -(MAX_PRICE + 1) <= p < 0 && m < WORD && InRange(q, n)
    ensures PriceBetter(false, p, q) && CompareSortKeys(MakeSortKey(p, m, false), MakeSortKey(q, n, false)) == 1
  {
    KeyIs(q, n, false);
    var w := Widened(p);
    assert w == DOUBLE_WORD + p;
    assert w * WORD == WORD * DOUBLE_WORD + p * WORD;
    var low := DOUBLE_WORD + p * WORD + m;
    assert (MAX_PRICE + 1) * WORD * 2 == DOUBLE_WORD;
    assert w * WORD + m == DOUBLE_WORD * (WORD - 1) + low;
    assert MakeSortKey(p, m, false) == low;
  }
}
