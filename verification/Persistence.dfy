/** The persistence pipeline: producers hand entries to two ring queues, one writer thread drains them
    into buffers and the buffers into log files, which it rotates. The queues are the rings of
    SpscQueue, taken as the FIFO sequences they are proved to be. */
module Persistence {

  const MAX_FILE_SIZE: nat := 104857600

  datatype Entry = Entry(data: string)

  datatype Kind = Trades | Orders

  /** One kind of entry: what its queue, its buffer, its finished files and its open file hold, the size
      the open file is taken to have, what was accepted, and how many were dropped at a full queue. */
  datatype Lane = Lane(queue: seq<Entry>, buffer: seq<Entry>, closed: seq<seq<Entry>>, open: seq<Entry>,
                       size: nat, accepted: seq<Entry>, dropped: nat)

  /** Where the writer is: the loads of its loop condition, the two drains with whether they found
      anything, the decision to flush, the two writes, and the final flush. */
  datatype Writer = Top | SawShutdown | SawNoTrades | Drain(kind: Kind, any: bool) | Decide(any: bool)
                  | Write(kind: Kind) | Final(kind: Kind) | Done

  /** `late` records that an entry was accepted after shutdown was requested. */
  datatype Pipe = Pipe(trades: Lane, orders: Lane, writer: Writer, shutdown: bool, late: bool) {
    function At(k: Kind): Lane { if k.Trades? then trades else orders }
    function With(k: Kind, l: Lane): Pipe { if k.Trades? then this.(trades := l) else this.(orders := l) }
  }

  /** `bufferSize` is the configured batch size, `room` what a queue can hold. */
  datatype Config = Config(bufferSize: nat, room: nat)

  datatype Step = Log(kind: Kind, entry: Entry) | RequestShutdown | Advance(elapsed: bool)

  // ---- Files ------------------------------------------------------------------------------

  function Sizes(es: seq<Entry>): nat {
    if es == [] then 0 else Sizes(es[..|es| - 1]) + |es[|es| - 1].data| + 1
  }

  function Rotated(l: Lane): Lane {
    if l.size >= MAX_FILE_SIZE then l.(closed := l.closed + [l.open], open := [], size := 0) else l
  }

  function Appended(l: Lane, batch: seq<Entry>): Lane {
    l.(open := l.open + batch, size := l.size + Sizes(batch))
  }

  /** Write a batch: nothing for an empty one, else both logs are rotated if due and the batch goes to
      the end of its own. */
  function Batched(p: Pipe, k: Kind): Pipe {
    if p.At(k).buffer == [] then p
    else
      var q := p.(trades := Rotated(p.trades), orders := Rotated(p.orders));
      q.With(k, Appended(q.At(k), p.At(k).buffer))
  }

  function Cleared(p: Pipe, k: Kind): Pipe { p.With(k, p.At(k).(buffer := [])) }

  // ---- Steps ------------------------------------------------------------------------------

  /** An entry is accepted if its queue has room, and dropped otherwise. */
  function Logged(c: Config, p: Pipe, k: Kind, e: Entry): Pipe {
    var l := p.At(k);
    if |l.queue| >= c.room then p.With(k, l.(dropped := l.dropped + 1))
    else p.With(k, l.(queue := l.queue + [e], accepted := l.accepted + [e])).(late := p.late || p.shutdown)
  }

  /** Pop one entry into the buffer, or move on when the queue is empty or the buffer full. */
  function Drained(c: Config, p: Pipe, k: Kind, any: bool): Pipe {
    var l, onward := p.At(k), if k.Trades? then Drain(Orders, any) else Decide(any);
    if l.queue == [] then p.(writer := onward)
    else
      var l' := l.(queue := l.queue[1..], buffer := l.buffer + [l.queue[0]]);
      var full := if k.Trades? then Drain(Orders, true) else Decide(true);
      p.With(k, l').(writer := if |l'.buffer| >= c.bufferSize then full else Drain(k, true))
  }

  predicate Flushes(c: Config, p: Pipe, any: bool, elapsed: bool) {
    && any && (p.trades.buffer != [] || p.orders.buffer != [])
    && (elapsed || |p.trades.buffer| >= c.bufferSize || |p.orders.buffer| >= c.bufferSize)
  }

  function Advanced(c: Config, p: Pipe, elapsed: bool): Pipe {
    match p.writer
    case Top => p.(writer := if p.shutdown then SawShutdown else Drain(Trades, false))
    case SawShutdown => p.(writer := if p.trades.queue == [] then SawNoTrades else Drain(Trades, false))
    case SawNoTrades => p.(writer := if p.orders.queue == [] then Final(Trades) else Drain(Trades, false))
    case Drain(k, any) => Drained(c, p, k, any)
    case Decide(any) => p.(writer := if Flushes(c, p, any, elapsed) then Write(Trades) else Top)
    case Write(k) => Cleared(Batched(p, k), k).(writer := if k.Trades? then Write(Orders) else Top)
    case Final(k) => Batched(p, k).(writer := if k.Trades? then Final(Orders) else Done)
    case Done => p
  }

  function Do(c: Config, p: Pipe, s: Step): Pipe {
    match s
    case Log(k, e) => Logged(c, p, k, e)
    case RequestShutdown => p.(shutdown := true)
    case Advance(elapsed) => Advanced(c, p, elapsed)
  }

  const EMPTY_LANE := Lane([], [], [], [], 0, [], 0)
  const START := Pipe(EMPTY_LANE, EMPTY_LANE, Top, false, false)

  function Run(c: Config, steps: seq<Step>): Pipe {
    if steps == [] then START else Do(c, Run(c, steps[..|steps| - 1]), steps[|steps| - 1])
  }

  // ---- Invariants -------------------------------------------------------------------------

  function Concatenated(fs: seq<seq<Entry>>): seq<Entry> {
    if fs == [] then [] else Concatenated(fs[..|fs| - 1]) + fs[|fs| - 1]
  }

  function Files(l: Lane): seq<Entry> { Concatenated(l.closed) + l.open }

  /** The final flush leaves the buffer as it is; after it the buffer is in the files. */
  predicate Spent(w: Writer, k: Kind) { w.Done? || (w.Final? && w.kind.Orders? && k.Trades?) }

  function Pending(p: Pipe, k: Kind): seq<Entry> { if Spent(p.writer, k) then [] else p.At(k).buffer }

  /** Files, buffer and queue, in this order, are what was accepted. */
  ghost predicate Conserved(p: Pipe, k: Kind) {
    Files(p.At(k)) + Pending(p, k) + p.At(k).queue == p.At(k).accepted
  }

  /** A buffer is full only between the drain that filled it and its write. */
  ghost predicate Bounded(c: Config, p: Pipe, k: Kind) {
    var n, w := |p.At(k).buffer|, p.writer;
    && n <= c.bufferSize
    && (n == c.bufferSize ==>
          || (w.Drain? && k.Trades? && w.kind.Orders? && w.any) || (w.Decide? && w.any)
          || (w.Write? && (k.Orders? || w.kind.Trades?)))
  }

  /** Past the check that found a queue empty, only a late entry can be in it. */
  ghost predicate Emptied(p: Pipe) {
    && (p.writer.SawShutdown? || p.writer.SawNoTrades? || p.writer.Final? || p.writer.Done? ==> p.shutdown)
    && (!p.late && (p.writer.SawNoTrades? || p.writer.Final? || p.writer.Done?) ==> p.trades.queue == [])
    && (!p.late && (p.writer.Final? || p.writer.Done?) ==> p.orders.queue == [])
  }

  ghost predicate Inv(c: Config, p: Pipe) {
    && Conserved(p, Trades) && Conserved(p, Orders)
    && Bounded(c, p, Trades) && Bounded(c, p, Orders)
    && |p.trades.queue| <= c.room && |p.orders.queue| <= c.room
    && Emptied(p)
  }

  lemma RotatedFiles(l: Lane)
    ensures Files(Rotated(l)) == Files(l)
  {
    assert (l.closed + [l.open])[..|l.closed|] == l.closed;
  }

  lemma AppendedFiles(l: Lane, batch: seq<Entry>)
    ensures Files(Appended(l, batch)) == Files(l) + batch
  {
  }

  lemma BatchedOwn(p: Pipe, k: Kind)
    ensures Files(Batched(p, k).At(k)) == Files(p.At(k)) + p.At(k).buffer
    ensures Batched(p, k).At(k).queue == p.At(k).queue && Batched(p, k).At(k).accepted == p.At(k).accepted
    ensures Batched(p, k).At(k).buffer == p.At(k).buffer
    ensures Batched(p, k).late == p.late && Batched(p, k).shutdown == p.shutdown
  {
    RotatedFiles(p.At(k));
    AppendedFiles(Rotated(p.At(k)), p.At(k).buffer);
    assert Files(p.At(k)) + [] == Files(p.At(k));
  }

  lemma BatchedOther(p: Pipe, k: Kind, j: Kind)
    requires j != k
    ensures Files(Batched(p, k).At(j)) == Files(p.At(j))
    ensures Batched(p, k).At(j).queue == p.At(j).queue && Batched(p, k).At(j).accepted == p.At(j).accepted
    ensures Batched(p, k).At(j).buffer == p.At(j).buffer
  {
    RotatedFiles(p.At(j));
  }

  lemma LogHolds(c: Config, p: Pipe, k: Kind, e: Entry)
    requires Inv(c, p)
    ensures Inv(c, Logged(c, p, k, e))
  {
    var l := p.At(k);
    assert Files(l) + Pending(p, k) + (l.queue + [e]) == Files(l) + Pending(p, k) + l.queue + [e];
  }

  lemma DrainHolds(c: Config, p: Pipe, k: Kind, any: bool)
    requires c.bufferSize > 0 && Inv(c, p) && p.writer == Drain(k, any)
    ensures Inv(c, Drained(c, p, k, any))
  {
    var l := p.At(k);
    if l.queue != [] {
      assert Files(l) + (l.buffer + [l.queue[0]]) + l.queue[1..] == Files(l) + l.buffer + l.queue;
    }
  }

  lemma WriteHolds(c: Config, p: Pipe, k: Kind)
    requires c.bufferSize > 0 && Inv(c, p) && p.writer == Write(k)
    ensures Inv(c, Advanced(c, p, false))
  {
    var j := if k.Trades? then Orders else Trades;
    BatchedOwn(p, k);
    BatchedOther(p, k, j);
    assert Files(p.At(k)) + p.At(k).buffer + [] == Files(p.At(k)) + p.At(k).buffer;
  }

  lemma FinalHolds(c: Config, p: Pipe, k: Kind)
    requires c.bufferSize > 0 && Inv(c, p) && p.writer == Final(k)
    ensures Inv(c, Advanced(c, p, false))
  {
    var j := if k.Trades? then Orders else Trades;
    BatchedOwn(p, k);
    BatchedOther(p, k, j);
    assert Files(p.At(k)) + p.At(k).buffer + [] == Files(p.At(k)) + p.At(k).buffer;
  }

  lemma StepHolds(c: Config, p: Pipe, s: Step)
    requires c.bufferSize > 0 && Inv(c, p)
    ensures Inv(c, Do(c, p, s))
  {
    match s
    case Log(k, e) => LogHolds(c, p, k, e);
    case RequestShutdown =>
    case Advance(elapsed) =>
      match p.writer
      case Drain(k, any) => DrainHolds(c, p, k, any);
      case Write(k) => WriteHolds(c, p, k);
      case Final(k) => FinalHolds(c, p, k);
      case _ =>
  }

  /** In every interleaving of producers, shutdown and writer: nothing is lost or reordered on the way
      from the queue to the files, and no buffer outgrows its size. */
  lemma {:induction false} PipelineConserves(c: Config, steps: seq<Step>)
    requires c.bufferSize > 0
    ensures var p := Run(c, steps);
      Inv(c, p) && forall k: Kind ::
        Files(p.At(k)) + Pending(p, k) + p.At(k).queue == p.At(k).accepted && |p.At(k).buffer| <= c.bufferSize
  {
    if steps != [] {
      PipelineConserves(c, steps[..|steps| - 1]);
      StepHolds(c, Run(c, steps[..|steps| - 1]), steps[|steps| - 1]);
    }
  }

  // ---- Flushing and rotation ----------------------------------------------------------------

  /** A turn that found entries writes them when the interval has passed or a buffer is full, and otherwise not. */
  lemma WritesExactly(c: Config, p: Pipe, any: bool, elapsed: bool)
    requires p.writer == Decide(any)
    ensures var w := Do(c, p, Advance(elapsed)).writer;
      if any && (p.trades.buffer != [] || p.orders.buffer != [])
         && (elapsed || |p.trades.buffer| >= c.bufferSize || |p.orders.buffer| >= c.bufferSize)
      then w == Write(Trades) else w == Top
  {
  }

  /** Logging to a full queue drops the entry, to any other accepts it. */
  lemma LogsExactly(c: Config, p: Pipe, k: Kind, e: Entry)
    ensures var l, l' := p.At(k), Do(c, p, Log(k, e)).At(k);
      if |l.queue| < c.room then l'.queue == l.queue + [e] && l'.accepted == l.accepted + [e] && l'.dropped == l.dropped
      else l'.queue == l.queue && l'.accepted == l.accepted && l'.dropped == l.dropped + 1
  {
  }

  /** A drain takes the first of its queue into its buffer, and goes on until the queue is empty or the buffer full. */
  lemma DrainsExactly(c: Config, p: Pipe, k: Kind, any: bool)
    requires p.writer == Drain(k, any)
    ensures var l, p' := p.At(k), Do(c, p, Advance(false)); var l' := p'.At(k);
      && (l.queue == [] ==> l' == l && p'.writer == if k.Trades? then Drain(Orders, any) else Decide(any))
      && (l.queue != [] ==> [l.queue[0]] + l'.queue == l.queue && l'.buffer == l.buffer + [l.queue[0]])
      && (l.queue != [] && |l'.buffer| < c.bufferSize ==> p'.writer == Drain(k, true))
      && (l.queue != [] && |l'.buffer| >= c.bufferSize ==>
            p'.writer == if k.Trades? then Drain(Orders, true) else Decide(true))
  {
  }

  lemma {:induction false} SizesConcat(a: seq<Entry>, b: seq<Entry>)
    ensures Sizes(a + b) == Sizes(a) + Sizes(b)
    decreases |b|
  {
    if b == [] {
      assert a + b == a;
    } else {
      assert (a + b)[..|a + b| - 1] == a + b[..|b| - 1];
      SizesConcat(a, b[..|b| - 1]);
    }
  }

  /** A file is closed only when it holds 104857600 bytes or more, and the size kept is the open file's. */
  ghost predicate FilesTell(l: Lane) {
    l.size == Sizes(l.open) && forall i :: 0 <= i < |l.closed| ==> Sizes(l.closed[i]) >= 104857600
  }

  lemma RotatedTell(l: Lane)
    requires FilesTell(l)
    ensures FilesTell(Rotated(l))
    ensures if Sizes(l.open) >= 104857600 then Rotated(l).closed == l.closed + [l.open] && Rotated(l).open == []
            else Rotated(l).closed == l.closed && Rotated(l).open == l.open
  {
  }

  lemma AppendedTell(l: Lane, batch: seq<Entry>)
    requires FilesTell(l)
    ensures FilesTell(Appended(l, batch))
    ensures Appended(l, batch).closed == l.closed && Appended(l, batch).open == l.open + batch
  {
    SizesConcat(l.open, batch);
  }

  /** A batch goes to the end of the open file, or, when that holds as much, to a new one. */
  lemma {:induction false} BatchGoes(p: Pipe, k: Kind)
    requires p.At(k).buffer != [] && FilesTell(p.At(k))
    ensures FilesTell(Batched(p, k).At(k))
    ensures var l, l' := p.At(k), Batched(p, k).At(k);
      if Sizes(l.open) >= 104857600 then l'.closed == l.closed + [l.open] && l'.open == l.buffer
      else l'.closed == l.closed && l'.open == l.open + l.buffer
  {
    RotatedTell(p.At(k));
    AppendedTell(Rotated(p.At(k)), p.At(k).buffer);
  }

  lemma {:induction false} BatchedTell(p: Pipe, k: Kind, j: Kind)
    requires FilesTell(p.At(j))
    ensures FilesTell(Batched(p, k).At(j))
  {
    if p.At(k).buffer != [] {
      if k == j {
        BatchGoes(p, k);
      } else {
        RotatedTell(p.At(j));
      }
    }
  }

  lemma {:induction false} DoTells(c: Config, p: Pipe, s: Step, j: Kind)
    requires FilesTell(p.At(j))
    ensures FilesTell(Do(c, p, s).At(j))
  {
    if s.Advance? && (p.writer.Write? || p.writer.Final?) {
      BatchedTell(p, p.writer.kind, j);
    }
  }

  /** Whatever is logged and whenever the writer runs, every file closed was due. */
  lemma {:induction false} RotatesExactly(c: Config, steps: seq<Step>, j: Kind)
    ensures FilesTell(Run(c, steps).At(j))
  {
    if steps != [] {
      RotatesExactly(c, steps[..|steps| - 1], j);
      DoTells(c, Run(c, steps[..|steps| - 1]), steps[|steps| - 1], j);
    }
  }

  // ---- The last look ------------------------------------------------------------------------

  /** The writer's next move reads the queue. */
  predicate Looks(w: Writer, k: Kind) {
    (w.Drain? && w.kind == k) || (if k.Trades? then w.SawShutdown? else w.SawNoTrades?)
  }

  /** What was accepted since the writer last read the queue. */
  function SinceLook(c: Config, steps: seq<Step>, k: Kind): seq<Entry> {
    if steps == [] then []
    else
      var init, s := steps[..|steps| - 1], steps[|steps| - 1];
      var p, since := Run(c, init), SinceLook(c, init, k);
      match s
      case Log(kind, e) => if kind == k && |p.At(k).queue| < c.room then since + [e] else since
      case RequestShutdown => since
      case Advance(_) => if Looks(p.writer, k) then [] else since
  }

  /** The writer will not read the queue again, unless the other queue sends it back. */
  predicate Left(w: Writer, k: Kind) { w.Done? || w.Final? || (w.SawNoTrades? && k.Trades?) }

  lemma {:induction false} LeftInQueue(c: Config, steps: seq<Step>, k: Kind)
    ensures Left(Run(c, steps).writer, k) ==> Run(c, steps).At(k).queue == SinceLook(c, steps, k)
  {
    if steps != [] { LeftInQueue(c, steps[..|steps| - 1], k); }
  }

  /** When the writer has exited, what is missing from the files is what was accepted after its last look at the
      queue. So nothing is missing exactly when nothing was, as when nothing was accepted after shutdown
      was requested. */
  lemma ExitedWriterWroteAll(c: Config, steps: seq<Step>, k: Kind)
    requires c.bufferSize > 0 && Run(c, steps).writer.Done?
    ensures var l := Run(c, steps).At(k);
      && Files(l) + SinceLook(c, steps, k) == l.accepted
      && (Files(l) == l.accepted <==> SinceLook(c, steps, k) == [])
      && (!Run(c, steps).late ==> SinceLook(c, steps, k) == [])
  {
    PipelineConserves(c, steps);
    LeftInQueue(c, steps, k);
    ExitedPipe(c, Run(c, steps), k);
  }

  lemma ExitedPipe(c: Config, p: Pipe, k: Kind)
    requires Inv(c, p) && p.writer.Done?
    ensures Files(p.At(k)) + p.At(k).queue == p.At(k).accepted && (!p.late ==> p.At(k).queue == [])
  {
    assert Conserved(p, k) && Pending(p, k) == [];
  }

  lemma RunMore(c: Config, steps: seq<Step>, s: Step)
    ensures Run(c, steps + [s]) == Do(c, Run(c, steps), s)
  {
    assert (steps + [s])[..|steps|] == steps;
  }

  /** A late entry can be lost: logged after the writer has found its queue empty, it is accepted, and is still in
      the queue when the writer has exited. */
  lemma LateEntryLost(c: Config, e: Entry) returns (steps: seq<Step>)
    requires c.bufferSize > 0 && c.room > 0
    ensures var p := Run(c, steps);
      && p.writer.Done? && p.late && p.trades.accepted == [e] == p.trades.queue && Files(p.trades) == []
  {
    var a := Advance(false);
    steps := [];
    RunMore(c, steps, RequestShutdown);
    steps := steps + [RequestShutdown];
    RunMore(c, steps, a);
    steps := steps + [a];
    RunMore(c, steps, a);
    steps := steps + [a];
    assert Run(c, steps).writer == SawNoTrades;
    RunMore(c, steps, Log(Trades, e));
    steps := steps + [Log(Trades, e)];
    RunMore(c, steps, a);
    steps := steps + [a];
    RunMore(c, steps, a);
    steps := steps + [a];
    RunMore(c, steps, a);
    steps := steps + [a];
  }
}
