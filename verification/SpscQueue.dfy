/** The single-producer single-consumer ring, as interleaved atomic steps. A load of the other side's
    index may be stale: it returns any value the index has had since the side last looked. */
module SpscQueue {
  import opened Masks

  /** Where the producer is inside `push`, with the item it carries. */
  datatype Producer<T> = Idle | Checked(item: T) | Written(item: T)

  /** Where the consumer is inside `pop`. */
  datatype Consumer<T> = Resting | Found | Taken(item: T)

  /** `write` and `read` are the two indexes. The rest is history: what was pushed and popped, and up to
      which count of the other side's completed operations each side has looked. */
  datatype Ring<T> = Ring(capacity: nat, buffer: seq<T>, write: nat, read: nat,
                          producer: Producer<T>, consumer: Consumer<T>,
                          pushed: seq<T>, popped: seq<T>, seenRead: nat, seenWrite: nat)

  datatype Step<T> =
    | CheckSpace(item: T, seen: nat)   // load both indexes; full or not
    | WriteSlot                        // store the item
    | PublishWrite                     // store the write index
    | CheckItem(seen: nat)             // load both indexes; empty or not
    | ReadSlot                         // load the item
    | PublishRead                      // store the read index

  function NextOf<T>(s: Ring<T>, index: nat): nat
    requires s.capacity > 0
  {
    And(index + 1, s.capacity - 1)
  }

  /** The push whose check sees the read index of `seen` completed pops finds the ring full. */
  predicate SeesFull<T>(s: Ring<T>, seen: nat)
    requires s.capacity > 0
  {
    NextOf(s, s.write) == seen % s.capacity
  }

  predicate SeesEmpty<T>(s: Ring<T>, seen: nat)
    requires s.capacity > 0
  {
    s.read == seen % s.capacity
  }

  predicate Enabled<T>(s: Ring<T>, a: Step<T>)
    requires s.capacity > 0
  {
    match a
    case CheckSpace(_, seen) => s.producer.Idle? && s.seenRead <= seen <= |s.popped|
    case WriteSlot => s.producer.Checked? && s.write < |s.buffer|
    case PublishWrite => s.producer.Written?
    case CheckItem(seen) => s.consumer.Resting? && s.seenWrite <= seen <= |s.pushed|
    case ReadSlot => s.consumer.Found? && s.read < |s.buffer|
    case PublishRead => s.consumer.Taken?
  }

  function Do<T>(s: Ring<T>, a: Step<T>): Ring<T>
    requires s.capacity > 0 && Enabled(s, a)
  {
    match a
    case CheckSpace(item, seen) =>
      s.(seenRead := seen, producer := if SeesFull(s, seen) then Idle else Checked(item))
    case WriteSlot => s.(buffer := s.buffer[s.write := s.producer.item], producer := Written(s.producer.item))
    case PublishWrite =>
      s.(write := NextOf(s, s.write), pushed := s.pushed + [s.producer.item], producer := Idle)
    case CheckItem(seen) =>
      s.(seenWrite := seen, consumer := if SeesEmpty(s, seen) then Resting else Found)
    case ReadSlot => s.(consumer := Taken(s.buffer[s.read]))
    case PublishRead =>
      s.(read := NextOf(s, s.read), popped := s.popped + [s.consumer.item], consumer := Resting)
  }

  ghost predicate Init<T>(s: Ring<T>) {
    && PowerOfTwo(s.capacity) && |s.buffer| == s.capacity && s.write == s.read == 0
    && s.producer.Idle? && s.consumer.Resting? && s.pushed == s.popped == [] && s.seenRead == s.seenWrite == 0
  }

  /** The items between the two indexes, oldest first. */
  function Contents<T>(s: Ring<T>): seq<T>
    requires s.capacity > 0 && |s.buffer| == s.capacity && |s.popped| <= |s.pushed|
  {
    seq(|s.pushed| - |s.popped|, i requires 0 <= i < |s.pushed| - |s.popped| => s.buffer[(|s.popped| + i) % s.capacity])
  }

  ghost predicate Indexes<T>(s: Ring<T>) {
    && PowerOfTwo(s.capacity) && |s.buffer| == s.capacity
    && s.write == |s.pushed| % s.capacity && s.read == |s.popped| % s.capacity
    && |s.popped| <= |s.pushed| < |s.popped| + s.capacity
    && s.seenRead <= |s.popped| && |s.pushed| < s.seenRead + s.capacity && s.seenWrite <= |s.pushed|
  }

  ghost predicate Inv<T>(s: Ring<T>) {
    && Indexes(s)
    && (forall i :: |s.popped| <= i < |s.pushed| ==> s.buffer[i % s.capacity] == s.pushed[i])
    && s.popped == s.pushed[..|s.popped|]
    && |s.popped| <= s.seenWrite
    && (!s.producer.Idle? ==> |s.pushed| + 1 < s.seenRead + s.capacity)
    && (s.producer.Written? ==> s.buffer[s.write] == s.producer.item)
    && (!s.consumer.Resting? ==> |s.popped| < s.seenWrite)
    && (s.consumer.Taken? ==> s.consumer.item == s.pushed[|s.popped|])
  }

  lemma InitHolds<T>(s: Ring<T>)
    requires Init(s)
    ensures Inv(s)
  {
  }

  lemma StepHolds<T>(s: Ring<T>, a: Step<T>)
    requires Inv(s) && Enabled(s, a)
    ensures Inv(Do(s, a))
  {
    var n, r, c := |s.pushed|, |s.popped|, s.capacity;
    match a
    case CheckSpace(item, seen) =>
      NextIndex(n, c);
      CheckSpaceTells(s, seen);
    case WriteSlot =>
      forall i | r <= i < n ensures i % c != s.write { DistinctIndexes(i, n, c); }
    case PublishWrite =>
      NextIndex(n, c);
    case CheckItem(seen) =>
      CheckItemTells(s, seen);
    case ReadSlot =>
    case PublishRead =>
      NextIndex(r, c);
      assert s.pushed[..r + 1] == s.pushed[..r] + [s.pushed[r]];
  }

  /** A push refuses exactly when the ring held all it can as of the index it saw. */
  lemma CheckSpaceTells<T>(s: Ring<T>, seen: nat)
    requires Indexes(s) && s.seenRead <= seen <= |s.popped|
    ensures SeesFull(s, seen) <==> |s.pushed| == seen + s.capacity - 1
  {
    var n, c := |s.pushed|, s.capacity;
    NextIndex(n, c);
    if n + 1 == seen + c {
      OneLap(seen, c);
    } else {
      DistinctIndexes(seen, n + 1, c);
    }
  }

  /** A pop finds nothing exactly when everything pushed, as of the index it saw, is popped. */
  lemma CheckItemTells<T>(s: Ring<T>, seen: nat)
    requires Indexes(s) && |s.popped| <= seen <= |s.pushed|
    ensures SeesEmpty(s, seen) <==> seen == |s.popped|
  {
    if |s.popped| < seen { DistinctIndexes(|s.popped|, seen, s.capacity); }
  }

  // ---- Runs -------------------------------------------------------------------------------

  /** A run is a list of steps, each enabled when taken. */
  ghost predicate Runs<T>(s: Ring<T>, steps: seq<Step<T>>, s': Ring<T>)
    requires s.capacity > 0
    decreases |steps|
  {
    if steps == [] then s' == s
    else
      Enabled(s, steps[0]) && Runs(Do(s, steps[0]), steps[1..], s')
  }

  /** In every state of every interleaving: what was popped and what the ring holds are, in order, what
      was pushed, and the ring holds at most one less than its capacity. */
  lemma {:induction false} RingIsFifo<T>(s: Ring<T>, steps: seq<Step<T>>, s': Ring<T>)
    requires Inv(s) && Runs(s, steps, s')
    ensures Inv(s') && s'.popped + Contents(s') == s'.pushed && |Contents(s')| <= s'.capacity - 1
    ensures s'.capacity == s.capacity && s.pushed <= s'.pushed && s.popped <= s'.popped
    decreases |steps|
  {
    if steps != [] {
      StepHolds(s, steps[0]);
      RingIsFifo(Do(s, steps[0]), steps[1..], s');
    }
  }

  /** A ring as constructed, whatever producer and consumer then do. */
  lemma NewRingIsFifo<T>(s: Ring<T>, steps: seq<Step<T>>, s': Ring<T>)
    requires Init(s) && Runs(s, steps, s')
    ensures Indexes(s') && s'.popped + Contents(s') == s'.pushed && |Contents(s')| <= s.capacity - 1
  {
    InitHolds(s);
    RingIsFifo(s, steps, s');
  }

  /** What a step does to the items held: only publishing changes them, at the back or at the front. */
  lemma StepIsFifo<T>(s: Ring<T>, a: Step<T>)
    requires Inv(s) && Enabled(s, a)
    ensures Inv(Do(s, a))
    ensures Contents(Do(s, a)) == match a
      case PublishWrite => Contents(s) + [s.producer.item]
      case PublishRead => Contents(s)[1..]
      case _ => Contents(s)
    ensures a.PublishRead? ==> Contents(s) != [] && s.consumer.item == Contents(s)[0]
  {
    StepHolds(s, a);
    ContentsAre(s);
    ContentsAre(Do(s, a));
  }

  lemma ContentsAre<T>(s: Ring<T>)
    requires Inv(s)
    ensures Contents(s) == s.pushed[|s.popped|..]
  {
  }

  /** The slot about to be written holds no item still to be popped. */
  lemma NoUnreadSlotOverwritten<T>(s: Ring<T>, i: nat)
    requires Inv(s) && s.producer.Checked? && |s.popped| <= i < |s.pushed|
    ensures i % s.capacity != s.write
  {
    DistinctIndexes(i, |s.pushed|, s.capacity);
  }

  /** `size()` when both indexes are read at one moment: the word difference, masked, is what is held. */
  lemma SizeExact<T>(s: Ring<T>)
    requires Inv(s) && s.capacity <= WORD
    ensures And((s.write - s.read + WORD) % WORD, s.capacity - 1) == |Contents(s)|
  {
    var held := |s.pushed| - |s.popped|;
    assert s.write == (|s.popped| + held) % s.capacity && |Contents(s)| == held;
    IndexDifference(s.write, s.read, |s.popped|, held, s.capacity);
  }

  lemma IndexDifference(write: nat, read: nat, popped: nat, held: nat, capacity: nat)
    requires PowerOfTwo(capacity) && held < capacity <= WORD
    requires write == (popped + held) % capacity && read == popped % capacity
    ensures And((write - read + WORD) % WORD, capacity - 1) == held
  {
    MaskIsRemainder((write - read + WORD) % WORD, capacity);
    WrappedDifference(popped, held, capacity);
  }
}
