/** The append-only event log: length-prefixed records, assigned sequence numbers, indexes kept as
    events are appended and rebuilt when the log is reopened. */
module EventLog {
  import opened Text
  import opened Events
  import DeterministicCalculator

  // ---- Framing ----------------------------------------------------------------------------

  const LENGTH_BYTES: nat := 8
  const SIZE_LIMIT: nat := 0x1_0000_0000_0000_0000

  /** `n` as `k` bytes, the least significant first. */
  function Bytes(n: nat, k: nat): (s: string)
    ensures |s| == k && forall i :: 0 <= i < k ==> s[i] as int < 256
    decreases k, n
  {
    if k == 0 then "" else [(n % 256) as char] + Bytes(n / 256, k - 1)
  }

  function NumberOf(s: string): nat {
    if s == "" then 0 else s[0] as nat + 256 * NumberOf(s[1..])
  }

  function Power(k: nat): nat { if k == 0 then 1 else 256 * Power(k - 1) }

  lemma {:induction false} BytesBack(n: nat, k: nat)
    requires n < Power(k)
    ensures NumberOf(Bytes(n, k)) == n
  {
    if k > 0 {
      assert n / 256 < Power(k - 1);
      BytesBack(n / 256, k - 1);
      assert Bytes(n, k)[1..] == Bytes(n / 256, k - 1);
    }
  }

  function Frame(record: string): string { Bytes(|record|, LENGTH_BYTES) + record }

  const BLANK := Event(OrderPlaced(0, 0, Orders.Buy, Orders.Limit, 0, 0), 0, 0, 0)

  /** The next record of a file: an event, a record cut short, or text that is no event. */
  datatype Found = Whole(event: Event, rest: string) | Torn | Garbled

  function ReadEvent(file: string): (f: Found)
    ensures f.Whole? ==> |f.rest| < |file|
  {
    if |file| < LENGTH_BYTES then Torn
    else
      var n := NumberOf(file[..LENGTH_BYTES]);
      if |file| < LENGTH_BYTES + n then Torn
      else
        match Deserialize(file[LENGTH_BYTES..LENGTH_BYTES + n])
        case None => Garbled
        case Some(e) => Whole(e, file[LENGTH_BYTES + n..])
  }

  /** The events read until the file ends; a torn record reads as one blank event and ends it. */
  function Scan(file: string): Option<seq<Event>>
    decreases |file|
  {
    if file == "" then Some([])
    else
      match ReadEvent(file)
      case Torn => Some([BLANK])
      case Garbled => None
      case Whole(e, rest) => After([e], Scan(rest))
  }

  function After(a: seq<Event>, b: Option<seq<Event>>): Option<seq<Event>> {
    match b case None => None case Some(es) => Some(a + es)
  }

  /** The file an event log is written to. */
  function Written(log: seq<Event>): string {
    if log == [] then "" else Frame(Serialize(log[0])) + Written(log[1..])
  }

  /** Events whose numbers are of the types of their fields and whose record has a length that fits its prefix. */
  ghost predicate Storable(e: Event) { Proper(e) && |Serialize(e)| < SIZE_LIMIT }

  /** The events as they come back. */
  function AllRead(log: seq<Event>): seq<Event> { seq(|log|, i requires 0 <= i < |log| => AsRead(log[i])) }

  lemma AllReadRest(log: seq<Event>)
    requires log != []
    ensures AllRead(log)[0] == AsRead(log[0]) && AllRead(log)[1..] == AllRead(log[1..])
  {
  }

  /** A log of events with reasons that fit comes back as it was. */
  lemma CleanLogBack(log: seq<Event>)
    ensures AllRead(log) == log <==> forall i :: 0 <= i < |log| ==> Clean(log[i].payload)
  {
    forall i | 0 <= i < |log| ensures AsRead(log[i]) == log[i] <==> Clean(log[i].payload) {
      if log[i].payload.OrderRejected? { ReasonRead(log[i].payload.reason, ""); }
    }
    if AllRead(log) == log {
      forall i | 0 <= i < |log| ensures Clean(log[i].payload) {
        assert AllRead(log)[i] == log[i];
      }
    }
  }

  ghost predicate AllStorable(log: seq<Event>) { forall i :: 0 <= i < |log| ==> Storable(log[i]) }

  lemma LengthBack(n: nat)
    requires n < SIZE_LIMIT
    ensures NumberOf(Bytes(n, LENGTH_BYTES)) == n
  {
    assert Power(2) == 256 * Power(1);
    assert Power(4) == 256 * Power(3);
    assert Power(6) == 256 * Power(5);
    assert Power(8) == 256 * Power(7);
    BytesBack(n, LENGTH_BYTES);
  }

  lemma {:induction false} ZeroBytes(k: nat)
    ensures Bytes(0, k) == seq(k, _ => 0 as char)
  {
    if k > 0 {
      ZeroBytes(k - 1);
      assert seq(k, _ => 0 as char) == [0 as char] + seq(k - 1, _ => 0 as char);
    }
  }

  /** The length prefix is eight bytes, the least significant first. */
  lemma PrefixTells(record: string, low: nat, high: nat)
    requires low < 256 && high < 256 && |record| == 256 * high + low
    ensures Frame(record) == [low as char, high as char] + seq(6, _ => 0 as char) + record
  {
    var n := |record|;
    assert n % 256 == low && n / 256 == high && high / 256 == 0;
    ZeroBytes(6);
    assert Bytes(high, 7) == [high as char] + Bytes(0, 6);
    assert Bytes(n, 8) == [low as char] + Bytes(high, 7);
  }

  lemma ReadFrame(e: Event, tail: string)
    requires Storable(e)
    ensures ReadEvent(Frame(Serialize(e)) + tail) == Whole(AsRead(e), tail)
  {
    var s := Serialize(e);
    var file := Frame(s) + tail;
    LengthBack(|s|);
    ReadsBack(e);
    assert file[..LENGTH_BYTES] == Bytes(|s|, LENGTH_BYTES);
    assert file[LENGTH_BYTES..LENGTH_BYTES + |s|] == s;
    assert file[LENGTH_BYTES + |s|..] == tail;
  }

  /** Reading a written log gives its events as they come back, whatever follows it in the file. */
  lemma {:induction false} ScanWritten(log: seq<Event>, tail: string)
    requires AllStorable(log)
    ensures Scan(Written(log) + tail) == After(AllRead(log), Scan(tail))
  {
    if log == [] {
      assert "" + tail == tail;
      assert AllRead(log) == [];
      assert Scan(tail).Some? ==> [] + Scan(tail).value == Scan(tail).value;
    } else {
      var more := Written(log[1..]) + tail;
      assert Written(log) + tail == Frame(Serialize(log[0])) + more;
      ScanFrame(log[0], more);
      ScanWritten(log[1..], tail);
      AllReadRest(log);
      AfterFirst(AllRead(log), Scan(tail));
    }
  }

  lemma ScanFrame(e: Event, tail: string)
    requires Storable(e)
    ensures Scan(Frame(Serialize(e)) + tail) == After([AsRead(e)], Scan(tail))
  {
    ReadFrame(e, tail);
  }

  lemma AfterNothing(log: seq<Event>)
    ensures After(log, Scan("")) == Some(log)
    ensures forall b :: After([], b) == b
  {
    assert log + [] == log;
    assert forall b :: After([], b).Some? ==> After([], b).value == b.value;
  }

  lemma ScanDone(contents: string, log: seq<Event>, rest: string)
    requires rest == "" && Scan(contents) == After(log, Scan(rest))
    ensures Scan(contents) == Some(log)
  {
    AfterNothing(log);
  }

  lemma AfterNext(log: seq<Event>, more: seq<Event>, b: Option<seq<Event>>)
    requires |more| == |log| + 1 && log == more[..|log|]
    ensures After(log, After([more[|log|]], b)) == After(more, b)
  {
    assert b.Some? ==> log + ([more[|log|]] + b.value) == more + b.value;
  }

  lemma AfterFirst(log: seq<Event>, b: Option<seq<Event>>)
    requires log != []
    ensures After([log[0]], After(log[1..], b)) == After(log, b)
  {
    assert b.Some? ==> [log[0]] + (log[1..] + b.value) == log + b.value;
  }

  /** A record cut short by a crash is read as one blank event after the whole ones. */
  lemma TornTail(log: seq<Event>, e: Event, n: nat)
    requires AllStorable(log) && Storable(e) && 0 < n < |Frame(Serialize(e))|
    ensures Scan(Written(log) + Frame(Serialize(e))[..n]) == Some(AllRead(log) + [BLANK])
  {
    var part, s := Frame(Serialize(e))[..n], Serialize(e);
    LengthBack(|s|);
    if n >= LENGTH_BYTES { assert part[..LENGTH_BYTES] == Bytes(|s|, LENGTH_BYTES); }
    assert ReadEvent(part) == Torn;
    ScanWritten(log, part);
  }

  lemma {:induction false} WrittenAppend(log: seq<Event>, e: Event)
    ensures Written(log + [e]) == Written(log) + Frame(Serialize(e))
  {
    if log == [] {
      assert [e][1..] == [];
    } else {
      assert (log + [e])[1..] == log[1..] + [e];
      WrittenAppend(log[1..], e);
      assert Frame(Serialize(log[0])) + (Written(log[1..]) + Frame(Serialize(e)))
          == Frame(Serialize(log[0])) + Written(log[1..]) + Frame(Serialize(e));
    }
  }

  // ---- Indexes ----------------------------------------------------------------------------

  /** The order an unlisted event is about: a placed or a cancelled one has its id first. */
  function AboutOrder(code: nat, xs: seq<int>): Option<nat> {
    if (code == 0 || code == 2) && xs != [] && xs[0] >= 0 then Some(xs[0]) else None
  }

  /** The order an event is indexed under. */
  function IndexedUnder(e: Event): Option<nat> {
    match e.payload
    case OrderPlaced(o, _, _, _, _, _) => Some(o)
    case OrderMatched(taker, _, _, _) => Some(taker)
    case OrderCancelled(o, _, _, _) => Some(o)
    case Unlisted(code, xs) => AboutOrder(code, xs)
    case _ => None
  }

  function Noted(index: map<nat, seq<nat>>, key: nat, sequence: nat): map<nat, seq<nat>> {
    index[key := (if key in index then index[key] else []) + [sequence]]
  }

  function NotedOrder(index: map<nat, seq<nat>>, e: Event): map<nat, seq<nat>> {
    match IndexedUnder(e) case None => index case Some(o) => Noted(index, o, e.sequence)
  }

  function OrderIndex(log: seq<Event>): map<nat, seq<nat>> {
    if log == [] then map[] else NotedOrder(OrderIndex(log[..|log| - 1]), log[|log| - 1])
  }

  function InstrumentIndex(log: seq<Event>): map<nat, seq<nat>> {
    if log == [] then map[]
    else
      var e := log[|log| - 1];
      Noted(InstrumentIndex(log[..|log| - 1]), e.instrument, e.sequence)
  }

  function Latest(log: seq<Event>): nat {
    if log == [] then 0
    else
      var before, n := Latest(log[..|log| - 1]), log[|log| - 1].sequence;
      if n > before then n else before
  }

  function SequenceToTimestamp(sequence: nat): int { DeterministicCalculator.SequenceToTimestamp(sequence, 0) }

  /** An event as the store keeps it: numbered if it was not, and stamped if it was not. */
  function Stamped(e: Event, latest: nat): Event {
    var n := if e.sequence == 0 then latest + 1 else e.sequence;
    e.(sequence := n, timestamp := if e.timestamp == 0 then SequenceToTimestamp(n) else e.timestamp)
  }

  // ---- Queries ----------------------------------------------------------------------------

  /** The events numbered from `from` to `to`, in the order of the log. */
  ghost function InRange(log: seq<Event>, from: nat, to: nat): seq<Event> {
    if log == [] then []
    else (if from <= log[0].sequence <= to then [log[0]] else []) + InRange(log[1..], from, to)
  }

  /** Whether a query for an order's events returns `e`. Events of no order count for order 0. */
  predicate Mentions(e: Event, order: nat) {
    e.sequence != 0 &&
    match e.payload
    case OrderPlaced(o, _, _, _, _, _) => o == order
    case OrderMatched(taker, maker, _, _) => taker == order || maker == order
    case OrderCancelled(o, _, _, _) => o == order
    case Unlisted(code, xs) => (match AboutOrder(code, xs) case Some(o) => o == order case None => order == 0)
    case _ => order == 0
  }

  ghost function Mentioning(log: seq<Event>, order: nat): seq<Event> {
    if log == [] then [] else (if Mentions(log[0], order) then [log[0]] else []) + Mentioning(log[1..], order)
  }

  ghost predicate Ascending(log: seq<Event>) {
    forall i, j :: 0 <= i < j < |log| ==> log[i].sequence < log[j].sequence
  }

  /** The part of the log a range query reads: it stops after the first event past the range. */
  ghost function ReadPart(log: seq<Event>, to: nat): seq<Event> {
    if log == [] then [] else if log[0].sequence > to then [log[0]] else [log[0]] + ReadPart(log[1..], to)
  }

  lemma {:induction false} NothingInRange(log: seq<Event>, from: nat, to: nat)
    requires forall i :: 0 <= i < |log| ==> log[i].sequence > to
    ensures InRange(log, from, to) == []
  {
    if log != [] { NothingInRange(log[1..], from, to); }
  }

  /** In an ascending log nothing in range stands behind the place where the query stops. */
  lemma {:induction false} EarlyExitLosesNothing(log: seq<Event>, from: nat, to: nat)
    requires Ascending(log)
    ensures InRange(ReadPart(log, to), from, to) == InRange(log, from, to)
  {
    if log != [] {
      if log[0].sequence > to {
        NothingInRange(log, from, to);
        NothingInRange([log[0]], from, to);
      } else {
        EarlyExitLosesNothing(log[1..], from, to);
        assert ([log[0]] + ReadPart(log[1..], to))[1..] == ReadPart(log[1..], to);
      }
    }
  }

  lemma ReadHead(tail: seq<Event>)
    requires AllStorable(tail) && Written(tail) != ""
    ensures tail != [] && ReadEvent(Written(tail)) == Whole(AsRead(tail[0]), Written(tail[1..]))
      && AllStorable(tail[1..])
  {
    ReadFrame(tail[0], Written(tail[1..]));
  }

  lemma NothingWritten(tail: seq<Event>)
    requires Written(tail) == ""
    ensures tail == []
  {
    assert tail != [] ==> |Written(tail)| >= LENGTH_BYTES;
  }

  lemma ReadPartFirst(tail: seq<Event>, from: nat, to: nat)
    requires tail != []
    ensures InRange(ReadPart(tail, to), from, to)
         == (if from <= tail[0].sequence <= to then [tail[0]] else [])
            + if tail[0].sequence > to then [] else InRange(ReadPart(tail[1..], to), from, to)
  {
    var r := ReadPart(tail, to);
    assert r[1..] == if tail[0].sequence > to then [] else ReadPart(tail[1..], to);
  }

  /** What reading the first event adds to the answer. */
  lemma ReadPartStep(found: seq<Event>, tail: seq<Event>, from: nat, to: nat)
    requires tail != []
    ensures tail[0].sequence > to ==> found + InRange(ReadPart(tail, to), from, to) == found
    ensures from <= tail[0].sequence <= to ==>
      found + InRange(ReadPart(tail, to), from, to) == found + [tail[0]] + InRange(ReadPart(tail[1..], to), from, to)
    ensures tail[0].sequence < from && tail[0].sequence <= to ==>
      found + InRange(ReadPart(tail, to), from, to) == found + InRange(ReadPart(tail[1..], to), from, to)
  {
    var rest := if tail[0].sequence > to then [] else InRange(ReadPart(tail[1..], to), from, to);
    ReadPartFirst(tail, from, to);
    Parts(found, [tail[0]], rest);
  }

  lemma Parts(a: seq<Event>, b: seq<Event>, c: seq<Event>)
    ensures a + (b + c) == a + b + c && a + ([] + c) == a + c && a + ([] + []) == a
  {
  }

  lemma MentioningStep(found: seq<Event>, tail: seq<Event>, order: nat)
    requires tail != []
    ensures found + Mentioning(tail, order)
         == (if Mentions(tail[0], order) then found + [tail[0]] else found) + Mentioning(tail[1..], order)
  {
  }

  /** A stored event at the end of an indexed log. */
  lemma StorableAppend(log: seq<Event>, e: Event)
    requires AllStorable(log) && Storable(e)
    ensures AllStorable(log + [e])
  {
  }

  lemma LatestAppend(log: seq<Event>, e: Event)
    ensures Latest(log + [e]) == if e.sequence > Latest(log) then e.sequence else Latest(log)
  {
    assert (log + [e])[..|log|] == log;
  }

  // ---- What queries return ------------------------------------------------------------------

  /** A query by order returns, of the numbered events, the placed and cancelled ones of the order and the matched
      ones it was on either side of, in their order; and for an order other than 0 no event listed is about others. */
  lemma {:induction false} QueryReturns(log: seq<Event>, order: nat)
    ensures forall e :: e in Mentioning(log, order) ==> e in log && e.sequence != 0
    ensures forall e :: e in log && e.sequence != 0 && e.payload.OrderPlaced? && e.payload.order == order ==>
      e in Mentioning(log, order)
    ensures forall e :: e in log && e.sequence != 0 && e.payload.OrderCancelled? && e.payload.order == order ==>
      e in Mentioning(log, order)
    ensures forall e ::
      e in log && e.sequence != 0 && e.payload.OrderMatched? && order in {e.payload.taker, e.payload.maker} ==>
      e in Mentioning(log, order)
    ensures order != 0 ==> forall e :: e in Mentioning(log, order) ==> OnlyAbout(e, order)
    ensures Ascending(log) ==> Ascending(Mentioning(log, order))
  {
    if log != [] {
      QueryReturns(log[1..], order);
      assert log == [log[0]] + log[1..];
      if Ascending(log) {
        assert forall e :: e in log[1..] ==> log[0].sequence < e.sequence;
        AscendingMore(log[0], Mentioning(log[1..], order));
      }
    }
  }

  lemma {:induction false} AscendingMore(e: Event, rest: seq<Event>)
    requires Ascending(rest) && forall k :: 0 <= k < |rest| ==> e.sequence < rest[k].sequence
    ensures Ascending([e] + rest)
  {
    var all := [e] + rest;
    forall i, j | 0 <= i < j < |all| ensures all[i].sequence < all[j].sequence {
      if i > 0 { assert rest[i - 1].sequence < rest[j - 1].sequence; }
    }
  }

  /** A query by numbers returns the events in range, in their order. */
  lemma {:induction false} RangeReturns(log: seq<Event>, from: nat, to: nat)
    ensures forall e :: e in InRange(log, from, to) <==> e in log && from <= e.sequence <= to
    ensures Ascending(log) ==> Ascending(InRange(log, from, to))
  {
    if log != [] {
      RangeReturns(log[1..], from, to);
      assert log == [log[0]] + log[1..];
      if Ascending(log) {
        assert forall e :: e in log[1..] ==> log[0].sequence < e.sequence;
        AscendingMore(log[0], InRange(log[1..], from, to));
      }
    }
  }

  /** The event is a placed, matched or cancelled one about the order, or one no enumeration lists. */
  predicate OnlyAbout(e: Event, order: nat) {
    match e.payload
    case OrderPlaced(o, _, _, _, _, _) => o == order
    case OrderMatched(taker, maker, _, _) => order in {taker, maker}
    case OrderCancelled(o, _, _, _) => o == order
    case Unlisted(_, numbers) => numbers != [] && numbers[0] == order
    case _ => false
  }

  lemma RangeOfLog(log: seq<Event>, from: nat, to: nat)
    ensures Ascending(log) ==>
      var found := InRange(ReadPart(log, to), from, to);
      Ascending(found) && forall e :: e in found <==> e in log && from <= e.sequence <= to
  {
    if Ascending(log) {
      EarlyExitLosesNothing(log, from, to);
      RangeReturns(log, from, to);
    }
  }

  // ---- What the indexes list ----------------------------------------------------------------

  /** The order an event is indexed under: the one placed or cancelled, or the taker of a match. */
  predicate Under(e: Event, order: nat) {
    match e.payload
    case OrderPlaced(o, _, _, _, _, _) => o == order
    case OrderMatched(taker, _, _, _) => taker == order
    case OrderCancelled(o, _, _, _) => o == order
    case Unlisted(code, numbers) => code in {0, 2} && numbers != [] && numbers[0] == order
    case _ => false
  }

  /** The numbers of the events that an index lists under a key, in their order. */
  ghost function NumbersUnder(log: seq<Event>, order: nat): seq<nat> {
    if log == [] then []
    else
      var last := log[|log| - 1];
      NumbersUnder(log[..|log| - 1], order) + if Under(last, order) then [last.sequence] else []
  }

  ghost function NumbersOf(log: seq<Event>, instrument: nat): seq<nat> {
    if log == [] then []
    else
      var last := log[|log| - 1];
      NumbersOf(log[..|log| - 1], instrument) + if last.instrument == instrument then [last.sequence] else []
  }

  lemma {:induction false} OrderIndexTells(log: seq<Event>, order: nat)
    ensures order in OrderIndex(log) <==> NumbersUnder(log, order) != []
    ensures order in OrderIndex(log) ==> OrderIndex(log)[order] == NumbersUnder(log, order)
  {
    if log != [] { OrderIndexTells(log[..|log| - 1], order); }
  }

  lemma {:induction false} InstrumentIndexTells(log: seq<Event>, instrument: nat)
    ensures instrument in InstrumentIndex(log) <==> NumbersOf(log, instrument) != []
    ensures instrument in InstrumentIndex(log) ==> InstrumentIndex(log)[instrument] == NumbersOf(log, instrument)
  {
    if log != [] { InstrumentIndexTells(log[..|log| - 1], instrument); }
  }

  // ---- Numbers ------------------------------------------------------------------------------

  /** No event of the log has a number above the latest, and unless that is 0 one has it. */
  lemma {:induction false} LatestTells(log: seq<Event>)
    ensures forall e :: e in log ==> e.sequence <= Latest(log)
    ensures Latest(log) > 0 ==> exists e :: e in log && e.sequence == Latest(log)
  {
    if log != [] { LatestTells(log[..|log| - 1]); }
  }

  /** An event without a number gets the first one past those of the log, and one without a time the time of its
      number; nothing else of it changes. */
  lemma StampedTells(log: seq<Event>, e: Event)
    ensures var e' := Stamped(e, Latest(log));
      && e'.payload == e.payload && e'.instrument == e.instrument
      && (e.sequence != 0 ==> e'.sequence == e.sequence)
      && (e.sequence == 0 ==> (forall x :: x in log ==> x.sequence < e'.sequence)
                              && (e'.sequence == 1 || exists x :: x in log && x.sequence + 1 == e'.sequence))
      && e'.timestamp == if e.timestamp != 0 then e.timestamp else 1609459200000000000 + e'.sequence
  {
    LatestTells(log);
  }

  class EventStore {
    var file: string
    var orderIndex: map<nat, seq<nat>>
    var instrumentIndex: map<nat, seq<nat>>
    var latest: nat
    var count: nat
    var initialized: bool
    /** The events the file holds. */
    ghost var log: seq<Event>

    /** The indexes, the latest number and the count are those of the log. */
    ghost predicate Indexed(es: seq<Event>)
      reads this`orderIndex, this`instrumentIndex, this`latest, this`count
    {
      orderIndex == OrderIndex(es) && instrumentIndex == InstrumentIndex(es) && latest == Latest(es) && count == |es|
    }

    ghost predicate Valid()
      reads this
    {
      AllStorable(log) && Indexed(log) && (initialized ==> file == Written(log))
    }

    constructor ()
      ensures Valid() && !initialized && log == []
    {
      file, orderIndex, instrumentIndex, latest, count, initialized, log := "", map[], map[], 0, 0, false, [];
    }

    method NoteEvent(e: Event, ghost es: seq<Event>)
      requires orderIndex == OrderIndex(es) && instrumentIndex == InstrumentIndex(es) && count == |es|
      modifies this`orderIndex, this`instrumentIndex, this`count
      ensures orderIndex == OrderIndex(es + [e]) && instrumentIndex == InstrumentIndex(es + [e]) && count == |es| + 1
    {
      assert (es + [e])[..|es|] == es;
      orderIndex := NotedOrder(orderIndex, e);
      instrumentIndex := Noted(instrumentIndex, e.instrument, e.sequence);
      count := count + 1;
    }

    /** Read and index the next record, whole or torn. Fails where the reader throws. */
    method TakeEvent(rest: string, ghost es: seq<Event>) returns (ok: bool, rest': string, ghost es': seq<Event>)
      requires rest != "" && Indexed(es)
      modifies this`orderIndex, this`instrumentIndex, this`count, this`latest
      ensures !ok ==> Scan(rest) == None
      ensures ok ==> |rest'| < |rest| && Indexed(es') && |es'| == |es| + 1 && es == es'[..|es|]
      ensures ok ==> Scan(rest) == After([es'[|es|]], Scan(rest'))
    {
      var e: Event;
      match ReadEvent(rest) {
        case Garbled =>
          return false, rest, es;
        case Torn =>
          e, rest' := BLANK, "";
          assert [BLANK] + [] == [BLANK];
        case Whole(event, more) =>
          e, rest' := event, more;
      }
      NoteEvent(e, es);
      if e.sequence > latest {
        latest := e.sequence;
      }
      es', ok := es + [e], true;
      assert (es + [e])[..|es|] == es;
    }

    /** Open the log file `contents`: its events are read and indexed. Fails where the reader throws. */
    method Initialize(contents: string) returns (ok: bool)
      requires Valid() && !initialized && log == []
      modifies this
      ensures ok <==> Scan(contents).Some?
      ensures ok ==> initialized && file == contents && log == Scan(contents).value && Indexed(log)
      ensures ok && AllStorable(log) && contents == Written(log) ==> Valid()
    {
      var rest := contents;
      ok, file := true, contents;
      AfterNothing([]);
      while rest != ""
        invariant ok && file == contents && Indexed(log) && Scan(contents) == After(log, Scan(rest))
        decreases |rest|
      {
        ghost var es;
        var tail;
        ok, tail, es := TakeEvent(rest, log);
        if !ok {
          return;
        }
        AfterNext(log, es, Scan(tail));
        rest, log := tail, es;
      }
      ScanDone(contents, log, rest);
      initialized := true;
    }

    /** Number and stamp an event that comes without. */
    method Number(event: Event) returns (e: Event)
      modifies this`latest
      ensures e == Stamped(event, old(latest)) && latest == if e.sequence > old(latest) then e.sequence else old(latest)
    {
      e := event;
      if e.sequence == 0 {
        latest := latest + 1;
        e := e.(sequence := latest);
      } else if e.sequence > latest {
        latest := e.sequence;
      }
      if e.timestamp == 0 {
        e := e.(timestamp := SequenceToTimestamp(e.sequence));
      }
    }

    /** Write a numbered event to the file and index it. */
    method Store(e: Event)
      requires AllStorable(log) && Storable(e) && file == Written(log)
      requires orderIndex == OrderIndex(log) && instrumentIndex == InstrumentIndex(log) && count == |log|
      modifies this`file, this`orderIndex, this`instrumentIndex, this`count, this`log
      ensures log == old(log) + [e] && AllStorable(log) && file == Written(log)
      ensures orderIndex == OrderIndex(log) && instrumentIndex == InstrumentIndex(log) && count == |log|
    {
      WrittenAppend(log, e);
      StorableAppend(log, e);
      file := file + Frame(Serialize(e));
      NoteEvent(e, log);
      log := log + [e];
    }

    /** Store an event that the latest number already counts. */
    method Keep(e: Event, ghost before: nat)
      requires AllStorable(log) && Storable(e) && initialized && file == Written(log) && before == Latest(log)
      requires orderIndex == OrderIndex(log) && instrumentIndex == InstrumentIndex(log) && count == |log|
      requires latest == if e.sequence > before then e.sequence else before
      modifies this`file, this`orderIndex, this`instrumentIndex, this`count, this`log
      ensures Valid() && log == old(log) + [e]
    {
      LatestAppend(log, e);
      Store(e);
    }

    method AppendEvent(event: Event) returns (ok: bool)
      requires Valid() && Storable(Stamped(event, latest))
      modifies this
      ensures Valid() && ok == old(initialized) && initialized == old(initialized)
      ensures log == if ok then old(log) + [Stamped(event, old(latest))] else old(log)
    {
      if !initialized {
        return false;
      }
      ghost var before := latest;
      var e := Number(event);
      Keep(e, before);
      return true;
    }

    /** The events numbered from `from` to `to`, read up to the first one past the range. */
    method GetEvents(from: nat, to: nat) returns (found: seq<Event>)
      requires Valid() && initialized
      ensures found == InRange(ReadPart(AllRead(log), to), from, to)
      ensures Ascending(AllRead(log)) ==>
        Ascending(found) && forall e :: e in found <==> e in AllRead(log) && from <= e.sequence <= to
    {
      RangeOfLog(AllRead(log), from, to);
      found := [];
      var rest := file;
      ghost var tail := log;
      while rest != ""
        invariant rest == Written(tail) && AllStorable(tail)
        invariant found + InRange(ReadPart(AllRead(tail), to), from, to)
          == InRange(ReadPart(AllRead(log), to), from, to)
        decreases |rest|
      {
        ReadHead(tail);
        var next := ReadEvent(rest);
        AllReadRest(tail);
        ReadPartStep(found, AllRead(tail), from, to);
        if from <= next.event.sequence <= to {
          found := found + [next.event];
        }
        if next.event.sequence > to {
          return;
        }
        rest, tail := next.rest, tail[1..];
      }
      NothingWritten(tail);
    }

    /** The events about one order, if it is indexed at all. */
    method GetOrderEvents(order: nat) returns (found: seq<Event>)
      requires Valid() && initialized
      ensures found == if order in orderIndex then Mentioning(AllRead(log), order) else []
      ensures order in orderIndex ==> forall e :: e in AllRead(log) && e.sequence != 0 ==>
        && (e.payload.OrderPlaced? && e.payload.order == order ==> e in found)
        && (e.payload.OrderCancelled? && e.payload.order == order ==> e in found)
        && (e.payload.OrderMatched? && order in {e.payload.taker, e.payload.maker} ==> e in found)
      ensures forall e :: e in found ==> e in AllRead(log) && e.sequence != 0 && (order != 0 ==> OnlyAbout(e, order))
    {
      QueryReturns(AllRead(log), order);
      found := [];
      if order !in orderIndex {
        return;
      }
      var rest := file;
      ghost var tail := log;
      while rest != ""
        invariant rest == Written(tail) && AllStorable(tail)
        invariant found + Mentioning(AllRead(tail), order) == Mentioning(AllRead(log), order)
        decreases |rest|
      {
        ReadHead(tail);
        var next := ReadEvent(rest);
        AllReadRest(tail);
        MentioningStep(found, AllRead(tail), order);
        if Mentions(next.event, order) {
          found := found + [next.event];
        }
        rest, tail := next.rest, tail[1..];
      }
      NothingWritten(tail);
    }
  }
}