/** Group commit: order threads append to the write-ahead log and then join a batch; one worker takes
    the batch, syncs the log and marks the batch's last timestamp as committed. */
module GroupCommit {

  const BATCH_SIZE: nat := 100
  const BATCH_TIMEOUT: int := 10000000

  datatype Entry = Entry(record: nat, timestamp: int)

  /** Where the worker is, with the batch it holds. */
  datatype Worker = Sleeping | Collected(batch: seq<Entry>) | Synced(batch: seq<Entry>)

  /** `wal` are the ids of the log's records and `synced` how many of them are on disk. `pending` are ids
      whose thread has logged but not joined a batch yet. `flushed` are all entries the worker is done
      with, after a sync or a failed one; the last of the first `marked` gave the committed timestamp. */
  datatype Log = Log(wal: seq<nat>, synced: nat, committed: int, clock: int, pending: set<nat>,
                     batch: seq<Entry>, worker: Worker, flushed: seq<Entry>, marked: nat)

  datatype Step =
    | Append(record: nat)
    | Join(record: nat, now: int)
    | Collect(now: int)
    | Sync
    | FailSync
    | Mark

  predicate ShouldFlush(batch: seq<Entry>, now: int) {
    |batch| >= BATCH_SIZE || (batch != [] && now - batch[0].timestamp > BATCH_TIMEOUT)
  }

  function Held(w: Worker): seq<Entry> { if w.Sleeping? then [] else w.batch }

  /** Every entry that ever joined a batch, in the order they joined. */
  function Entries(s: Log): seq<Entry> { s.flushed + Held(s.worker) + s.batch }

  /** The clock is read under the batch lock and never runs backwards. */
  predicate Enabled(s: Log, a: Step) {
    match a
    case Append(r) => r !in s.wal
    case Join(r, now) => r in s.pending && now >= s.clock
    case Collect(now) => s.worker.Sleeping? && now >= s.clock
    case Sync => s.worker.Collected?
    case FailSync => s.worker.Collected?
    case Mark => s.worker.Synced? && s.worker.batch != []
  }

  function Do(s: Log, a: Step): Log
    requires Enabled(s, a)
  {
    match a
    case Append(r) => s.(wal := s.wal + [r], pending := s.pending + {r})
    case Join(r, now) => s.(batch := s.batch + [Entry(r, now)], pending := s.pending - {r}, clock := now)
    case Collect(now) =>
      if ShouldFlush(s.batch, now) then s.(batch := [], worker := Collected(s.batch), clock := now)
      else s.(clock := now)
    case Sync => s.(synced := |s.wal|, worker := Synced(s.worker.batch))
    case FailSync => s.(flushed := s.flushed + s.worker.batch, worker := Sleeping)
    case Mark =>
      s.(committed := s.worker.batch[|s.worker.batch| - 1].timestamp, flushed := s.flushed + s.worker.batch,
         worker := Sleeping, marked := |s.flushed| + |s.worker.batch|)
  }

  ghost predicate Init(s: Log) {
    && s.wal == [] && s.synced == 0 && s.committed < s.clock && s.pending == {} && s.batch == []
    && s.worker.Sleeping? && s.flushed == [] && s.marked == 0
  }

  /** The record is among the first `n` of the log. */
  ghost predicate OnDisk(wal: seq<nat>, n: nat, record: nat) {
    exists i :: 0 <= i < n && i < |wal| && wal[i] == record
  }

  ghost predicate Timed(es: seq<Entry>, clock: int) {
    && (forall i, j :: 0 <= i < j < |es| ==> es[i].timestamp <= es[j].timestamp)
    && forall i :: 0 <= i < |es| ==> es[i].timestamp <= clock
  }

  /** The first `n` entries have their records on disk. */
  ghost predicate Durable(s: Log, n: nat) {
    n <= |Entries(s)| && forall i :: 0 <= i < n ==> OnDisk(s.wal, s.synced, Entries(s)[i].record)
  }

  /** The committed timestamp is that of the last entry marked; before the first mark it is older than all. */
  ghost predicate Marked(s: Log) {
    && s.marked <= |s.flushed|
    && (s.marked == 0 ==>
          s.committed < s.clock && forall i :: 0 <= i < |Entries(s)| ==> s.committed < Entries(s)[i].timestamp)
    && (s.marked > 0 ==> s.committed == Entries(s)[s.marked - 1].timestamp)
  }

  ghost predicate Inv(s: Log) {
    && s.synced <= |s.wal| && Timed(Entries(s), s.clock) && Marked(s)
    && (forall r :: r in s.pending ==> r in s.wal)
    && (forall i :: 0 <= i < |Entries(s)| ==> Entries(s)[i].record in s.wal)
    && (!s.worker.Sleeping? ==> s.worker.batch != [])
    && Durable(s, s.marked)
    && (s.worker.Synced? ==> Durable(s, |s.flushed| + |s.worker.batch|))
  }

  lemma InitHolds(s: Log)
    requires Init(s)
    ensures Inv(s)
  {
  }

  lemma AppendHolds(s: Log, r: nat)
    requires Inv(s) && Enabled(s, Append(r))
    ensures Inv(Do(s, Append(r)))
  {
    var s' := Do(s, Append(r));
    assert Entries(s') == Entries(s);
    assert forall i :: 0 <= i < |s.wal| ==> s'.wal[i] == s.wal[i];
  }

  lemma JoinHolds(s: Log, r: nat, now: int)
    requires Inv(s) && Enabled(s, Join(r, now))
    ensures Inv(Do(s, Join(r, now)))
  {
    var s' := Do(s, Join(r, now));
    assert Entries(s') == Entries(s) + [Entry(r, now)];
  }

  lemma CollectHolds(s: Log, now: int)
    requires Inv(s) && Enabled(s, Collect(now))
    ensures Inv(Do(s, Collect(now)))
  {
    assert Entries(Do(s, Collect(now))) == Entries(s);
  }

  lemma WorkerHolds(s: Log, a: Step)
    requires Inv(s) && Enabled(s, a) && (a.Sync? || a.FailSync? || a.Mark?)
    ensures Inv(Do(s, a))
  {
    var s' := Do(s, a);
    assert Entries(s') == Entries(s);
    if a.Sync? {
      forall i | 0 <= i < |Entries(s)| ensures OnDisk(s'.wal, s'.synced, Entries(s)[i].record) {
        assert Entries(s)[i].record in s.wal;
      }
    }
    if a.Mark? {
      var n := |s.flushed| + |s.worker.batch| - 1;
      assert Entries(s)[n] == s.worker.batch[|s.worker.batch| - 1];
    }
  }

  lemma StepHolds(s: Log, a: Step)
    requires Inv(s) && Enabled(s, a)
    ensures Inv(Do(s, a))
  {
    match a
    case Append(r) => AppendHolds(s, r);
    case Join(r, now) => JoinHolds(s, r, now);
    case Collect(now) => CollectHolds(s, now);
    case _ => WorkerHolds(s, a);
  }

  ghost predicate Runs(s: Log, steps: seq<Step>, s': Log)
    decreases |steps|
  {
    if steps == [] then s' == s else Enabled(s, steps[0]) && Runs(Do(s, steps[0]), steps[1..], s')
  }

  ghost predicate NoStampTwice(es: seq<Entry>) {
    forall i, j :: 0 <= i < j < |es| ==> es[i].timestamp != es[j].timestamp
  }

  /** In every interleaving, failed syncs included: each entry stamped before the committed timestamp has its
      record in the synced part of the log, and so has each stamped no later if no two entries share a stamp;
      entries are never reordered or lost. */
  lemma {:induction false} CommittedIsDurable(s: Log, steps: seq<Step>, s': Log)
    requires Inv(s) && Runs(s, steps, s')
    ensures Inv(s') && Entries(s) <= Entries(s')
    ensures forall i :: 0 <= i < |Entries(s')| && Entries(s')[i].timestamp < s'.committed ==>
      OnDisk(s'.wal, s'.synced, Entries(s')[i].record)
    ensures NoStampTwice(Entries(s')) ==>
      forall i :: 0 <= i < |Entries(s')| && Entries(s')[i].timestamp <= s'.committed ==>
        OnDisk(s'.wal, s'.synced, Entries(s')[i].record)
    decreases |steps|
  {
    if steps == [] {
      assert forall i :: s.marked <= i < |Entries(s)| ==> s.committed <= Entries(s)[i].timestamp;
    } else {
      StepHolds(s, steps[0]);
      EntriesGrow(s, steps[0]);
      CommittedIsDurable(Do(s, steps[0]), steps[1..], s');
    }
  }

  /** The worker takes the batch, all of it, exactly when it holds a hundred entries or its first has waited more than
      ten million nanoseconds. */
  lemma CollectsExactly(s: Log, now: int)
    requires Enabled(s, Collect(now))
    ensures var s' := Do(s, Collect(now));
      if |s.batch| >= 100 || (s.batch != [] && now - s.batch[0].timestamp > 10000000)
      then s'.batch == [] && s'.worker == Collected(s.batch)
      else s'.batch == s.batch && s'.worker == s.worker
  {
  }

  /** What the worker collected it lets go, synced or not, and only a sync moves the committed timestamp: to that of
      the last entry collected. */
  lemma WorkerTells(s: Log, a: Step)
    requires Enabled(s, a) && s.worker.Collected?
    ensures a.Sync? && s.worker.batch != [] ==>
      var s' := Do(Do(s, a), Mark);
      && s'.committed == s.worker.batch[|s.worker.batch| - 1].timestamp && s'.synced == |s.wal|
      && s'.worker == Sleeping && s'.batch == s.batch && s'.flushed == s.flushed + s.worker.batch
    ensures a.FailSync? ==>
      var s' := Do(s, a);
      && s'.committed == s.committed && s'.synced == s.synced
      && s'.worker == Sleeping && s'.batch == s.batch && s'.flushed == s.flushed + s.worker.batch
  {
  }

  /** A log as opened, whatever the threads then do. */
  lemma NewLogIsDurable(s: Log, steps: seq<Step>, s': Log)
    requires Init(s) && Runs(s, steps, s')
    ensures forall i :: 0 <= i < |Entries(s')| && Entries(s')[i].timestamp < s'.committed ==>
      OnDisk(s'.wal, s'.synced, Entries(s')[i].record)
  {
    InitHolds(s);
    CommittedIsDurable(s, steps, s');
  }

  lemma {:induction false} RunsOn(s: Log, a: seq<Step>, s': Log, b: seq<Step>, s'': Log)
    requires Runs(s, a, s') && Runs(s', b, s'')
    ensures Runs(s, a + b, s'')
    decreases |a|
  {
    if a == [] {
      assert a + b == b;
    } else {
      assert (a + b)[1..] == a[1..] + b;
      RunsOn(Do(s, a[0]), a[1..], s', b, s'');
    }
  }

  /** Between two ticks of the clock `n` threads log and join. */
  lemma {:induction false} BatchFills(s: Log, n: nat) returns (steps: seq<Step>, s': Log)
    requires Init(s)
    ensures Runs(s, steps, s') && Inv(s') && s'.worker.Sleeping? && |s'.batch| == |s'.wal| == n
    ensures s'.clock == s.clock && s'.pending == {} && s'.synced == 0 && s'.flushed == []
    ensures forall i :: 0 <= i < n ==> s'.wal[i] == i && s'.batch[i] == Entry(i, s.clock)
  {
    if n == 0 {
      InitHolds(s);
      return [], s;
    }
    var before;
    steps, before := BatchFills(s, n - 1);
    var logged := Do(before, Append(n - 1));
    s' := Do(logged, Join(n - 1, s.clock));
    StepHolds(before, Append(n - 1));
    StepHolds(logged, Join(n - 1, s.clock));
    assert [Append(n - 1), Join(n - 1, s.clock)][1..] == [Join(n - 1, s.clock)];
    assert Runs(logged, [Join(n - 1, s.clock)], s');
    RunsOn(s, steps, before, [Append(n - 1), Join(n - 1, s.clock)], s');
    steps := steps + [Append(n - 1), Join(n - 1, s.clock)];
  }

  /** Stamps that repeat break it: when the clock has not moved since a full batch was joined, the next thread to
      join, after the sync and before the mark, gets the committed timestamp with its record not on disk. */
  lemma SharedStampNotDurable(s: Log, r: nat) returns (steps: seq<Step>, s': Log)
    requires Inv(s) && s.worker.Sleeping? && |s.batch| >= BATCH_SIZE && r !in s.wal
    requires s.batch[|s.batch| - 1].timestamp == s.clock
    ensures Runs(s, steps, s') && Entries(s') == Entries(s) + [Entry(r, s'.committed)]
    ensures !OnDisk(s'.wal, s'.synced, r)
  {
    var s1 := Do(s, Collect(s.clock));
    var s2 := Do(s1, Sync);
    var s3 := Do(s2, Append(r));
    var s4 := Do(s3, Join(r, s.clock));
    s' := Do(s4, Mark);
    var last := [Mark];
    var rest := [Join(r, s.clock)] + last;
    var more := [Append(r)] + rest;
    var most := [Sync] + more;
    steps := [Collect(s.clock)] + most;
    assert last[1..] == [] && rest[1..] == last && more[1..] == rest && most[1..] == more && steps[1..] == most;
    assert Runs(s4, last, s') && Runs(s3, rest, s') && Runs(s2, more, s') && Runs(s1, most, s');
    assert Entries(s1) == Entries(s) && Entries(s') == Entries(s4) == Entries(s) + [Entry(r, s.clock)];
    assert forall i :: 0 <= i < |s2.wal| ==> s'.wal[i] == s2.wal[i];
  }

  /** Such a run from a log just opened. */
  lemma NewLogNotDurable(s: Log) returns (steps: seq<Step>, s': Log)
    requires Init(s)
    ensures Runs(s, steps, s') && |Entries(s')| == BATCH_SIZE + 1
    ensures Entries(s')[BATCH_SIZE].timestamp == s'.committed
    ensures !OnDisk(s'.wal, s'.synced, Entries(s')[BATCH_SIZE].record)
  {
    var first, filled := BatchFills(s, BATCH_SIZE);
    assert BATCH_SIZE !in filled.wal;
    var rest;
    rest, s' := SharedStampNotDurable(filled, BATCH_SIZE);
    RunsOn(s, first, filled, rest, s');
    steps := first + rest;
  }

  lemma EntriesGrow(s: Log, a: Step)
    requires Enabled(s, a)
    ensures Entries(s) <= Entries(Do(s, a))
  {
    if a.Join? {
      assert Entries(Do(s, a)) == Entries(s) + [Entry(a.record, a.now)];
    } else {
      assert Entries(Do(s, a)) == Entries(s);
    }
  }
}
