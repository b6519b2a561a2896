/** Price-time priority: who stands ahead of whom on one side of the book. */
module Priority {
  import opened Orders
  import opened PriceLevels

  datatype Key = Key(price: int, timestamp: int)

  predicate PriceBetter(buy: bool, a: int, b: int) { if buy then a > b else a < b }

  /** The comparison the tree descends by. Equal keys are not ahead of one another. */
  predicate Ahead(buy: bool, a: Key, b: Key) {
    PriceBetter(buy, a.price, b.price) || (a.price == b.price && a.timestamp < b.timestamp)
  }

  ghost predicate Sorted(buy: bool, s: seq<Key>) {
    forall i, j :: 0 <= i < j < |s| ==> !Ahead(buy, s[j], s[i])
  }

  /** How many orders a newcomer queues behind. */
  function Position(buy: bool, s: seq<Key>, k: Key): (n: nat)
    ensures n <= |s|
    ensures n < |s| ==> Ahead(buy, k, s[n])
    ensures forall i :: 0 <= i < n ==> !Ahead(buy, k, s[i])
  {
    PositionFrom(buy, s, k, 0)
  }

  function PositionFrom(buy: bool, s: seq<Key>, k: Key, from: nat): (n: nat)
    requires from <= |s|
    ensures from <= n <= |s|
    ensures n < |s| ==> Ahead(buy, k, s[n])
    ensures forall i :: from <= i < n ==> !Ahead(buy, k, s[i])
    decreases |s| - from
  {
    if from == |s| || Ahead(buy, k, s[from]) then from else PositionFrom(buy, s, k, from + 1)
  }

  function InsertAt<T>(s: seq<T>, i: nat, x: T): (r: seq<T>)
    requires i <= |s|
    ensures |r| == |s| + 1
    ensures forall k :: 0 <= k < |r| ==> r[k] == if k < i then s[k] else if k == i then x else s[k - 1]
  {
    s[..i] + [x] + s[i..]
  }

  function KeyOf(o: Order): Key
    reads o`timestamp
  {
    Key(o.price, o.timestamp)
  }

  /** `keys` are the keys of the orders `s`, in the same order. */
  ghost predicate KeysOf(s: seq<Order>, keys: seq<Key>)
    reads (set o | o in s)`timestamp
  {
    |keys| == |s| && forall i :: 0 <= i < |s| ==> keys[i] == Key(s[i].price, s[i].timestamp)
  }

  function OrdKeys(s: seq<Ord>): (k: seq<Key>) {
    seq(|s|, i requires 0 <= i < |s| => Key(s[i].price, s[i].timestamp))
  }

  /** The position is the only place that keeps the queue sorted with ties in arrival order. */
  lemma PositionUnique(buy: bool, s: seq<Key>, k: Key, n: nat)
    requires n <= |s|
    requires forall i :: 0 <= i < n ==> !Ahead(buy, k, s[i])
    requires forall i :: n <= i < |s| ==> Ahead(buy, k, s[i])
    ensures Position(buy, s, k) == n
  {
    var m := Position(buy, s, k);
    assert m < |s| ==> Ahead(buy, k, s[m]);
    assert n < |s| ==> Ahead(buy, k, s[n]);
  }

  /** Queueing a newcomer keeps a sorted queue sorted, and everyone behind it is strictly worse. */
  lemma InsertKeepsSorted(buy: bool, s: seq<Key>, k: Key)
    requires Sorted(buy, s)
    ensures Sorted(buy, InsertAt(s, Position(buy, s, k), k))
    ensures forall i :: Position(buy, s, k) <= i < |s| ==> Ahead(buy, k, s[i])
  {
    var n := Position(buy, s, k);
    forall i | n <= i < |s| ensures Ahead(buy, k, s[i]) {
      assert n < i ==> !Ahead(buy, s[i], s[n]);
    }
    var r := InsertAt(s, n, k);
    forall i, j | 0 <= i < j < |r| ensures !Ahead(buy, r[j], r[i]) {
      if i != n && j != n {
        assert !Ahead(buy, s[if j < n then j else j - 1], s[if i < n then i else i - 1]);
      }
    }
  }

  lemma KeysInsert(s: seq<Order>, keys: seq<Key>, i: nat, o: Order)
    requires i <= |s| && KeysOf(s, keys)
    ensures KeysOf(InsertAt(s, i, o), InsertAt(keys, i, KeyOf(o)))
  {
  }

  /** In a sorted queue nobody behind an order stands ahead of it. */
  lemma SortedAround(buy: bool, keys: seq<Key>, a: seq<Order>, x: Order, b: seq<Order>)
    requires Sorted(buy, keys) && KeysOf(a + [x] + b, keys)
    ensures forall e :: e in a ==> !Ahead(buy, KeyOf(x), KeyOf(e))
    ensures forall e :: e in b ==> !Ahead(buy, KeyOf(e), KeyOf(x))
  {
    var s := a + [x] + b;
    assert s[|a|] == x && keys[|a|] == KeyOf(x);
    forall e | e in a ensures !Ahead(buy, KeyOf(x), KeyOf(e)) {
      var i :| 0 <= i < |a| && a[i] == e;
      assert s[i] == e && keys[i] == KeyOf(e);
    }
    forall e | e in b ensures !Ahead(buy, KeyOf(e), KeyOf(x)) {
      var i :| 0 <= i < |b| && b[i] == e;
      assert s[|a| + 1 + i] == e && keys[|a| + 1 + i] == KeyOf(e);
    }
  }

  lemma KeysWithout(buy: bool, s: seq<Order>, keys: seq<Key>, i: nat)
    requires i < |s| && KeysOf(s, keys) && Sorted(buy, keys)
    ensures KeysOf(Without(s, i), Without(keys, i)) && Sorted(buy, Without(keys, i))
  {
    forall a, b | 0 <= a < b < |keys| - 1 ensures !Ahead(buy, Without(keys, i)[b], Without(keys, i)[a]) {
      assert !Ahead(buy, keys[if b < i then b else b + 1], keys[if a < i then a else a + 1]);
    }
  }

  /** `v` are the values of the orders `s` now. */
  ghost predicate Mirrors(s: seq<Order>, v: seq<Ord>)
    reads (set o | o in s)`filled, (set o | o in s)`remaining, (set o | o in s)`status, (set o | o in s)`timestamp,
          (set o | o in s)`sequence
  {
    |v| == |s| && forall i :: 0 <= i < |s| ==> v[i] == s[i].View()
  }

  lemma MirrorsInsert(s: seq<Order>, v: seq<Ord>, n: nat, o: Order)
    requires n <= |s| && Mirrors(s, v)
    ensures Mirrors(InsertAt(s, n, o), InsertAt(v, n, o.View()))
  {
  }

  lemma MirrorsWithout(s: seq<Order>, v: seq<Ord>, n: nat)
    requires n < |s| && Mirrors(s, v)
    ensures Mirrors(Without(s, n), Without(v, n))
  {
  }

  // ---- Arrivals ---------------------------------------------------------------------------

  /** The queue that arrivals with the keys `ks` make, by arrival number. */
  function Arranged(buy: bool, ks: seq<Key>): (q: seq<nat>)
    ensures |q| == |ks| && forall i :: 0 <= i < |q| ==> q[i] < |ks|
  {
    if ks == [] then []
    else
      var n := |ks| - 1;
      var before := Arranged(buy, ks[..n]);
      InsertAt(before, Position(buy, KeysAt(ks, before), ks[n]), n)
  }

  function KeysAt(ks: seq<Key>, q: seq<nat>): (r: seq<Key>)
    requires forall i :: 0 <= i < |q| ==> q[i] < |ks|
    ensures |r| == |q| && forall i :: 0 <= i < |q| ==> r[i] == ks[q[i]]
  {
    seq(|q|, i requires 0 <= i < |q| => ks[q[i]])
  }

  /** Each arrival once, and equal keys in the order they arrived. */
  ghost predicate Stable(ks: seq<Key>, q: seq<nat>)
    requires forall i :: 0 <= i < |q| ==> q[i] < |ks|
  {
    && (forall i, j :: 0 <= i < j < |q| ==> q[i] != q[j])
    && (forall i, j :: 0 <= i < j < |q| && ks[q[i]] == ks[q[j]] ==> q[i] < q[j])
  }

  /** The latest arrival, put where nobody behind it has its key. */
  lemma StableInsert(ks: seq<Key>, q: seq<nat>, m: nat, n: nat)
    requires n < |ks| && m <= |q| && (forall i :: 0 <= i < |q| ==> q[i] < n) && Stable(ks, q)
    requires forall i :: m <= i < |q| ==> ks[q[i]] != ks[n]
    ensures Stable(ks, InsertAt(q, m, n))
  {
  }

  /** One more arrival: its keys, and its order. */
  lemma KeysAtInsert(ks: seq<Key>, q: seq<nat>, m: nat, n: nat)
    requires (forall i :: 0 <= i < |q| ==> q[i] < |ks|) && m <= |q| && n < |ks|
    ensures KeysAt(ks, InsertAt(q, m, n)) == InsertAt(KeysAt(ks, q), m, ks[n])
  {
  }

  lemma KeysAtPrefix(ks: seq<Key>, q: seq<nat>)
    requires ks != [] && forall i :: 0 <= i < |q| ==> q[i] < |ks| - 1
    ensures KeysAt(ks[..|ks| - 1], q) == KeysAt(ks, q)
    ensures Stable(ks[..|ks| - 1], q) ==> Stable(ks, q)
  {
  }

  lemma StableNext(buy: bool, ks: seq<Key>, q: seq<nat>)
    requires ks != [] && (forall i :: 0 <= i < |q| ==> q[i] < |ks| - 1) && Stable(ks, q) && Sorted(buy, KeysAt(ks, q))
    ensures Stable(ks, InsertAt(q, Position(buy, KeysAt(ks, q), ks[|ks| - 1]), |ks| - 1))
  {
    var keys, n := KeysAt(ks, q), |ks| - 1;
    InsertKeepsSorted(buy, keys, ks[n]);
    assert forall i :: Position(buy, keys, ks[n]) <= i < |q| ==> Ahead(buy, ks[n], keys[i]);
    StableInsert(ks, q, Position(buy, keys, ks[n]), n);
  }

  /** Any arrivals end up in priority order, each once, and equal keys in the order they arrived. */
  lemma {:induction false} ArrangedIsStable(buy: bool, ks: seq<Key>)
    ensures Sorted(buy, KeysAt(ks, Arranged(buy, ks))) && Stable(ks, Arranged(buy, ks))
  {
    if ks != [] {
      var before, n := Arranged(buy, ks[..|ks| - 1]), |ks| - 1;
      ArrangedIsStable(buy, ks[..n]);
      KeysAtPrefix(ks, before);
      InsertKeepsSorted(buy, KeysAt(ks, before), ks[n]);
      KeysAtInsert(ks, before, Position(buy, KeysAt(ks, before), ks[n]), n);
      StableNext(buy, ks, before);
    }
  }
}
