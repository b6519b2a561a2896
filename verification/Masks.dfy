/** Index arithmetic of the ring buffers: masking with a power of two less one is the remainder. */
module Masks {
  const WORD: nat := 0x1_0000_0000_0000_0000

  /** Bitwise and. */
  function And(a: nat, b: nat): (r: nat)
    decreases a, b
  {
    if a == 0 || b == 0 then 0 else 2 * And(a / 2, b / 2) + if a % 2 == 1 && b % 2 == 1 then 1 else 0
  }

  predicate PowerOfTwo(n: nat) { n == 1 || (n > 1 && n % 2 == 0 && PowerOfTwo(n / 2)) }

  lemma AndHalves(x: nat, h: nat)
    requires h > 0
    ensures And(x, 2 * h - 1) == 2 * And(x / 2, h - 1) + x % 2
  {
    assert (2 * h - 1) / 2 == h - 1 && (2 * h - 1) % 2 == 1;
  }

  /** `x & (2^k - 1)` is `x % 2^k`. */
  lemma {:induction false} MaskIsRemainder(x: nat, n: nat)
    requires PowerOfTwo(n)
    ensures And(x, n - 1) == x % n
    decreases n
  {
    if n > 1 {
      MaskIsRemainder(x / 2, n / 2);
      AndHalves(x, n / 2);
      Halved(x, n / 2);
    }
  }

  lemma Halved(x: nat, h: nat)
    requires h > 0
    ensures x % (2 * h) == 2 * ((x / 2) % h) + x % 2
  {
    var q, r := (x / 2) / h, (x / 2) % h;
    assert x / 2 == h * q + r;
    assert (2 * h) * q == 2 * (h * q);
    RemainderIs(x, 2 * h, q, 2 * r + x % 2);
  }

  lemma {:induction false} TimesMonotone(n: nat, a: nat, b: nat)
    requires a <= b
    ensures n * a <= n * b && (a < b ==> n * a + n <= n * b)
    decreases b - a
  {
    if a < b {
      TimesMonotone(n, a + 1, b);
      assert n * (a + 1) == n * a + n;
    }
  }

  lemma QuotientUnique(n: nat, q: nat, r: nat, q': nat, r': nat)
    requires r < n && r' < n && n * q + r == n * q' + r'
    ensures q == q' && r == r'
  {
    if q < q' { TimesMonotone(n, q, q'); } else { TimesMonotone(n, q', q); }
  }

  lemma RemainderIs(x: nat, n: nat, q: nat, r: nat)
    requires n > 0 && r < n && x == n * q + r
    ensures x % n == r && x / n == q
  {
    QuotientUnique(n, q, r, x / n, x % n);
  }

  /** `n & (n - 1)` vanishes exactly at the powers of two. */
  lemma {:induction false} PowerTest(n: nat)
    requires n >= 1
    ensures And(n, n - 1) == 0 <==> PowerOfTwo(n)
  {
    if n % 2 == 0 {
      PowerTest(n / 2);
      assert (n - 1) / 2 == n / 2 - 1;
    } else if n > 1 {
      AndSame(n / 2);
      assert (n - 1) / 2 == n / 2;
    }
  }

  lemma {:induction false} AndSame(a: nat)
    ensures And(a, a) == a
  {
    if a > 0 { AndSame(a / 2); }
  }

  /** The constructors' capacity: the least power of two that is large enough. */
  method RoundUp(requested: nat) returns (capacity: nat)
    requires 1 <= requested <= WORD / 2
    ensures PowerOfTwo(capacity) && requested <= capacity < 2 * requested
    ensures PowerOfTwo(requested) ==> capacity == requested
  {
    capacity := requested;
    PowerTest(requested);
    if And(requested, requested - 1) != 0 {
      capacity := 1;
      while capacity < requested
        invariant PowerOfTwo(capacity) && capacity < 2 * requested
        decreases requested - capacity
      {
        capacity := 2 * capacity;
      }
    }
  }

  /** Stepping an index by one is stepping a counter by one, modulo the capacity. */
  lemma NextIndex(n: nat, capacity: nat)
    requires PowerOfTwo(capacity)
    ensures And(n % capacity + 1, capacity - 1) == (n + 1) % capacity
  {
    MaskIsRemainder(n % capacity + 1, capacity);
    NextRemainder(n, capacity);
  }

  lemma NextRemainder(n: nat, capacity: nat)
    requires capacity > 0
    ensures (n % capacity + 1) % capacity == (n + 1) % capacity
  {
    var q, r := n / capacity, n % capacity;
    if r + 1 < capacity {
      RemainderIs(n + 1, capacity, q, r + 1);
      RemainderIs(r + 1, capacity, 0, r + 1);
    } else {
      assert capacity * (q + 1) == capacity * q + capacity;
      RemainderIs(n + 1, capacity, q + 1, 0);
      RemainderIs(capacity, capacity, 1, 0);
    }
  }

  lemma OneLap(n: nat, capacity: nat)
    requires capacity > 0
    ensures (n + capacity) % capacity == n % capacity
  {
    var q := n / capacity;
    assert capacity * (q + 1) == capacity * q + capacity;
    RemainderIs(n + capacity, capacity, q + 1, n % capacity);
  }

  /** Counters less than a capacity apart have different indexes. */
  lemma DistinctIndexes(a: nat, b: nat, capacity: nat)
    requires capacity > 0 && a < b < a + capacity
    ensures a % capacity != b % capacity
  {
    var qa, qb, r := a / capacity, b / capacity, a % capacity;
    if r == b % capacity {
      if qa < qb { TimesMonotone(capacity, qa, qb); } else { TimesMonotone(capacity, qb, qa); }
    }
  }

  lemma {:induction false} PowersDivide(c: nat, w: nat)
    requires PowerOfTwo(c) && PowerOfTwo(w) && c <= w
    ensures w % c == 0
  {
    if c > 1 {
      PowersDivide(c / 2, w / 2);
      Halved(w, c / 2);
    }
  }

  lemma Lap(r: nat, d: nat, c: nat)
    requires c > 0 && d < c
    ensures (r + d) % c == r % c + d || (r + d) % c == r % c + d - c
  {
    var q := r / c;
    if r % c + d < c {
      RemainderIs(r + d, c, q, r % c + d);
    } else {
      assert c * (q + 1) == c * q + c;
      RemainderIs(r + d, c, q + 1, r % c + d - c);
    }
  }

  lemma Doubled(m: nat)
    requires PowerOfTwo(m)
    ensures PowerOfTwo(2 * m)
  {
  }

  lemma {:induction false} PowerTimes(a: nat, b: nat)
    requires PowerOfTwo(a) && PowerOfTwo(b)
    ensures PowerOfTwo(a * b)
  {
    if a > 1 {
      var h := a / 2;
      PowerTimes(h, b);
      assert (2 * h) * b == 2 * (h * b);
      Doubled(h * b);
    }
  }

  lemma WordIsPower()
    ensures PowerOfTwo(WORD)
  {
    assert PowerOfTwo(2) && PowerOfTwo(4);
    PowerTimes(4, 4);
    PowerTimes(16, 16);
    PowerTimes(0x100, 0x100);
    PowerTimes(0x1_0000, 0x1_0000);
    PowerTimes(0x1_0000_0000, 0x1_0000_0000);
  }

  lemma BelowMultiple(w: nat, d: nat, c: nat)
    requires c > 0 && d < c <= w && w % c == 0
    ensures (w + d - c) % c == d
  {
    var k := w / c;
    assert w == c * k;
    TimesLess(c, k);
    RemainderIs(w + d - c, c, k - 1, d);
  }

  lemma WrapBelow(d: nat, c: nat)
    requires PowerOfTwo(c) && c <= WORD && d < c
    ensures ((d - c + WORD) % WORD) % c == d
  {
    WordIsPower();
    PowersDivide(c, WORD);
    BelowMultiple(WORD, d, c);
    RemainderIs(WORD + d - c, WORD, 0, WORD + d - c);
  }

  lemma WrapAbove(d: nat, c: nat)
    requires c <= WORD && d < c
    ensures ((d + WORD) % WORD) % c == d
  {
    RemainderIs(d + WORD, WORD, 1, d);
    RemainderIs(d, c, 0, d);
  }

  /** The machine word difference of two indexes, modulo the capacity, is the distance of their counters. */
  lemma WrappedDifference(r: nat, d: nat, c: nat)
    requires PowerOfTwo(c) && c <= WORD && d < c
    ensures (((r + d) % c - r % c + WORD) % WORD) % c == d
  {
    Lap(r, d, c);
    WrapAbove(d, c);
    WrapBelow(d, c);
  }

  lemma TimesLess(c: nat, k: nat)
    requires c > 0 && c * k > 0
    ensures k > 0 && c * (k - 1) == c * k - c
  {
  }
}
