/** Partitioned logs, a producer's deliveries into them, offset windows, and bounded reads of a window. */
module KafkaLog {
  import opened Common

  type Bytes = seq<bv8>

  /** A message without a key is one with the empty key: the readers treat both alike. */
  datatype Message = Message(key: string, value: Bytes)

  /** A place in a log: a message, and which record of the observed producer it is, if it is one of its own. */
  datatype Slot = Slot(message: Message, own: Option<nat>)

  /** The partitions of a topic. Each only ever grows at its end. */
  type Log = seq<seq<Slot>>

  datatype Coordinate = Coordinate(partition: nat, offset: nat)

  predicate Inside(log: Log, c: Coordinate)
  {
    c.partition < |log| && c.offset < |log[c.partition]|
  }

  function SlotAt(log: Log, c: Coordinate): Slot
    requires Inside(log, c)
  {
    log[c.partition][c.offset]
  }

  ghost predicate Extends(later: Log, earlier: Log)
  {
    |later| == |earlier| && forall p :: 0 <= p < |earlier| ==> earlier[p] <= later[p]
  }

  lemma ExtendsTransitive(a: Log, b: Log, c: Log)
    requires Extends(b, a) && Extends(c, b)
    ensures Extends(c, a)
  {
    forall p | 0 <= p < |a| ensures a[p] <= c[p] { assert a[p] <= b[p] && b[p] <= c[p]; }
  }

  lemma ExtendedSlot(later: Log, earlier: Log, c: Coordinate)
    requires Extends(later, earlier) && Inside(earlier, c)
    ensures Inside(later, c) && SlotAt(later, c) == SlotAt(earlier, c)
  {
    assert earlier[c.partition] <= later[c.partition];
  }

  function Appended(log: Log, partition: nat, slot: Slot): Log
    requires partition < |log|
  {
    log[partition := log[partition] + [slot]]
  }

  // ----- one producer and its broker -----

  /**
   * A producer's view of one topic: the records handed to it, where each was appended, which it was told were delivered
   * or had failed, and the delivered counter its callback keeps for each partition.
   */
  datatype Broker = Broker(log: Log, sent: seq<Message>, places: map<nat, Coordinate>, acknowledged: set<nat>, failed: set<nat>,
                           deliveredBy: seq<nat>)

  function FreshBroker(log: Log): Broker
  {
    Broker(log, [], map[], {}, {}, seq(|log|, p => 0))
  }

  /** What can happen around a producer; an event that cannot happen in a state changes nothing. */
  datatype BrokerEvent =
    | Append(record: nat, partition: nat)
    | Acknowledge(record: nat)
    | Fail(record: nat)
    | Foreign(partition: nat, message: Message)

  function Produce(b: Broker, m: Message): Broker
  {
    b.(sent := b.sent + [m])
  }

  predicate Resolved(b: Broker, record: nat)
  {
    record in b.acknowledged || record in b.failed
  }

  function Happen(b: Broker, e: BrokerEvent): (after: Broker)
    ensures |after.log| == |b.log|
  {
    match e
    case Append(i, p) =>
      if i < |b.sent| && i !in b.places && p < |b.log|
      then b.(log := Appended(b.log, p, Slot(b.sent[i], Some(i))), places := b.places[i := Coordinate(p, |b.log[p]|)]) else b
    case Acknowledge(i) =>
      if i in b.places && !Resolved(b, i) && b.places[i].partition < |b.deliveredBy|
      then b.(acknowledged := b.acknowledged + {i}, deliveredBy := Counted(b.deliveredBy, b.places[i].partition)) else b
    case Fail(i) =>
      if i < |b.sent| && !Resolved(b, i) then b.(failed := b.failed + {i}) else b
    case Foreign(p, m) =>
      if p < |b.log| then b.(log := Appended(b.log, p, Slot(m, None))) else b
  }

  /** `delivered_by_partition[partition] += 1` */
  function Counted(counts: seq<nat>, partition: nat): seq<nat>
    requires partition < |counts|
  {
    counts[partition := counts[partition] + 1]
  }

  function HappenAll(b: Broker, events: seq<BrokerEvent>): (after: Broker)
    ensures |after.log| == |b.log|
  {
    if events == [] then b else Happen(HappenAll(b, events[..|events| - 1]), events[|events| - 1])
  }

  function Total(counts: seq<nat>): nat
  {
    if counts == [] then 0 else Total(counts[..|counts| - 1]) + counts[|counts| - 1]
  }

  lemma {:induction false} TotalCounted(counts: seq<nat>, p: nat)
    requires p < |counts|
    ensures Total(Counted(counts, p)) == Total(counts) + 1
  {
    var n := |counts| - 1;
    if p < n {
      TotalCounted(counts[..n], p);
      assert Counted(counts, p)[..n] == Counted(counts[..n], p);
    } else {
      assert Counted(counts, p)[..n] == counts[..n];
    }
  }

  lemma {:induction false} TotalZero(counts: seq<nat>)
    requires forall p :: 0 <= p < |counts| ==> counts[p] == 0
    ensures Total(counts) == 0
  {
    if counts != [] { TotalZero(counts[..|counts| - 1]); }
  }

  // ----- what a broker keeps -----

  /** A record has exactly one place, past the first offsets, and no slot past them claims a record that is not there. */
  ghost predicate Placed(b: Broker, first: seq<nat>)
  {
    && |first| == |b.log|
    && (forall i :: i in b.places ==> PlaceFits(b, first, i))
    && (forall c :: Inside(b.log, c) && c.offset >= first[c.partition] ==> SlotFits(b, c))
  }

  predicate PlaceFits(b: Broker, first: seq<nat>, i: nat)
    requires |first| == |b.log| && i in b.places
  {
    i < |b.sent| && Inside(b.log, b.places[i]) && SlotAt(b.log, b.places[i]) == Slot(b.sent[i], Some(i))
    && b.places[i].offset >= first[b.places[i].partition]
  }

  predicate SlotFits(b: Broker, c: Coordinate)
    requires Inside(b.log, c)
  {
    SlotAt(b.log, c).own.Some? ==> SlotAt(b.log, c).own.value in b.places && b.places[SlotAt(b.log, c).own.value] == c
  }

  /** Deliveries are counted once each, by the partition they went to. */
  ghost predicate Accounted(b: Broker)
  {
    && |b.deliveredBy| == |b.log|
    && b.acknowledged <= b.places.Keys && b.acknowledged !! b.failed
    && (forall i :: i in b.failed ==> i < |b.sent|)
    && Total(b.deliveredBy) == |b.acknowledged|
    && (forall p :: 0 <= p < |b.deliveredBy| ==> (b.deliveredBy[p] > 0 <==> exists i :: i in b.acknowledged && i in b.places && b.places[i].partition == p))
  }

  ghost predicate BrokerFits(b: Broker, first: seq<nat>)
  {
    Placed(b, first) && Accounted(b)
  }

  lemma FreshFits(log: Log, first: seq<nat>)
    requires |first| == |log| && forall p :: 0 <= p < |log| ==> first[p] == |log[p]|
    ensures BrokerFits(FreshBroker(log), first)
  {
    TotalZero(FreshBroker(log).deliveredBy);
  }

  lemma ProduceFits(b: Broker, first: seq<nat>, m: Message)
    requires BrokerFits(b, first)
    ensures BrokerFits(Produce(b, m), first)
  {
    var after := Produce(b, m);
    forall i | i in after.places ensures PlaceFits(after, first, i) { assert PlaceFits(b, first, i); }
    forall c | Inside(after.log, c) && c.offset >= first[c.partition] ensures SlotFits(after, c) { assert SlotFits(b, c); }
    forall p | 0 <= p < |after.deliveredBy|
      ensures after.deliveredBy[p] > 0 <==> exists i :: i in after.acknowledged && i in after.places && after.places[i].partition == p
    {
      assert b.deliveredBy[p] > 0 <==> exists i :: i in b.acknowledged && i in b.places && b.places[i].partition == p;
    }
  }

  lemma AppendExtends(log: Log, p: nat, slot: Slot)
    requires p < |log|
    ensures Extends(Appended(log, p, slot), log)
    ensures var at := Coordinate(p, |log[p]|); Inside(Appended(log, p, slot), at) && SlotAt(Appended(log, p, slot), at) == slot
    ensures forall c :: Inside(Appended(log, p, slot), c) && c != Coordinate(p, |log[p]|) ==>
      Inside(log, c) && SlotAt(log, c) == SlotAt(Appended(log, p, slot), c)
  {
  }

  /** Appending a slot, own or foreign, keeps every record at one place. */
  lemma AppendPlaced(b: Broker, after: Broker, first: seq<nat>, p: nat, slot: Slot)
    requires Placed(b, first) && p < |b.log| && after.log == Appended(b.log, p, slot) && after.sent == b.sent
    requires |b.log[p]| >= first[p]
    requires var at := Coordinate(p, |b.log[p]|);
      if slot.own.Some? then var i := slot.own.value; i < |b.sent| && i !in b.places && slot.message == b.sent[i] && after.places == b.places[i := at]
      else after.places == b.places
    ensures Placed(after, first)
  {
    AppendExtends(b.log, p, slot);
    var at := Coordinate(p, |b.log[p]|);
    forall i | i in after.places ensures PlaceFits(after, first, i) {
      if i in b.places {
        assert PlaceFits(b, first, i);
        ExtendedSlot(after.log, b.log, b.places[i]);
      }
    }
    forall c | Inside(after.log, c) && c.offset >= first[c.partition] ensures SlotFits(after, c) {
      if c != at { assert SlotFits(b, c); }
    }
  }

  lemma AcknowledgeAccounted(b: Broker, i: nat)
    requires Accounted(b) && i in b.places && !Resolved(b, i) && b.places[i].partition < |b.deliveredBy|
    ensures Accounted(Happen(b, Acknowledge(i)))
  {
    var after, at := Happen(b, Acknowledge(i)), b.places[i].partition;
    TotalCounted(b.deliveredBy, at);
    forall p | 0 <= p < |after.deliveredBy|
      ensures after.deliveredBy[p] > 0 <==> exists j :: j in after.acknowledged && j in after.places && after.places[j].partition == p
    {
      if p == at {
        assert i in after.acknowledged && after.places[i].partition == p;
      } else {
        assert b.deliveredBy[p] > 0 <==> exists j :: j in b.acknowledged && j in b.places && b.places[j].partition == p;
        forall j | j in after.acknowledged && after.places[j].partition == p ensures j in b.acknowledged {
        }
      }
    }
  }

  /** The counters speak of the acknowledged records' places only, which other events leave alone. */
  lemma AccountedByPlaces(b: Broker, after: Broker)
    requires Accounted(b) && |after.log| == |b.log| && after.deliveredBy == b.deliveredBy && after.acknowledged == b.acknowledged
    requires after.acknowledged !! after.failed && forall i :: i in after.failed ==> i < |after.sent|
    requires forall i :: i in b.places ==> i in after.places && after.places[i] == b.places[i]
    ensures Accounted(after)
  {
    forall p | 0 <= p < |after.deliveredBy|
      ensures after.deliveredBy[p] > 0 <==> exists i :: i in after.acknowledged && i in after.places && after.places[i].partition == p
    {
      assert b.deliveredBy[p] > 0 <==> exists i :: i in b.acknowledged && i in b.places && b.places[i].partition == p;
      forall i | i in after.acknowledged ensures i in b.places && after.places[i] == b.places[i] {
      }
    }
  }

  /** The first offsets are still inside the partitions. */
  ghost predicate Reached(log: Log, first: seq<nat>)
  {
    |first| == |log| && forall p :: 0 <= p < |log| ==> first[p] <= |log[p]|
  }

  /** An event keeps all of this, and only ever extends the log. */
  ghost predicate Moves(b: Broker, after: Broker, first: seq<nat>)
  {
    BrokerFits(after, first) && Reached(after.log, first) && Grows(b, after) && after.sent == b.sent
  }

  /** The log is extended, and records keep their places. */
  ghost predicate Grows(b: Broker, after: Broker)
  {
    Extends(after.log, b.log) && forall i :: i in b.places ==> i in after.places && after.places[i] == b.places[i]
  }

  lemma GrowsTransitive(a: Broker, b: Broker, c: Broker)
    requires Grows(a, b) && Grows(b, c)
    ensures Grows(a, c)
  {
    ExtendsTransitive(a.log, b.log, c.log);
  }

  lemma AppendedMoves(b: Broker, after: Broker, first: seq<nat>, p: nat, slot: Slot)
    requires BrokerFits(b, first) && Reached(b.log, first) && p < |b.log|
    requires slot.own.Some? ==> slot.own.value < |b.sent| && slot.own.value !in b.places && slot.message == b.sent[slot.own.value]
    requires var places := if slot.own.Some? then b.places[slot.own.value := Coordinate(p, |b.log[p]|)] else b.places;
      after == b.(log := Appended(b.log, p, slot), places := places)
    ensures Moves(b, after, first)
  {
    AppendPlaced(b, after, first, p, slot);
    AccountedByPlaces(b, after);
  }

  lemma HappenFits(b: Broker, first: seq<nat>, e: BrokerEvent)
    requires BrokerFits(b, first) && Reached(b.log, first)
    ensures Moves(b, Happen(b, e), first)
  {
    var after := Happen(b, e);
    if after == b {
    } else if e.Append? {
      AppendedMoves(b, after, first, e.partition, Slot(b.sent[e.record], Some(e.record)));
    } else if e.Foreign? {
      AppendedMoves(b, after, first, e.partition, Slot(e.message, None));
    } else {
      if e.Acknowledge? { AcknowledgeAccounted(b, e.record); } else { AccountedByPlaces(b, after); }
      SamePlaces(b, after, first);
    }
  }

  lemma SamePlaces(b: Broker, after: Broker, first: seq<nat>)
    requires Placed(b, first) && after.log == b.log && after.sent == b.sent && after.places == b.places
    ensures Placed(after, first)
  {
    forall i | i in after.places ensures PlaceFits(after, first, i) { assert PlaceFits(b, first, i); }
    forall c | Inside(after.log, c) && c.offset >= first[c.partition] ensures SlotFits(after, c) { assert SlotFits(b, c); }
  }

  lemma {:induction false} HappenAllFits(b: Broker, first: seq<nat>, events: seq<BrokerEvent>)
    requires BrokerFits(b, first) && Reached(b.log, first)
    ensures Moves(b, HappenAll(b, events), first)
  {
    if events != [] {
      var before := HappenAll(b, events[..|events| - 1]);
      HappenAllFits(b, first, events[..|events| - 1]);
      HappenFits(before, first, events[|events| - 1]);
      GrowsTransitive(b, before, HappenAll(b, events));
    }
  }

  // ----- offset windows -----

  predicate IsWindow(starts: seq<nat>, ends: seq<nat>)
  {
    |starts| == |ends| && forall p :: 0 <= p < |starts| ==> starts[p] <= ends[p]
  }

  predicate InWindow(starts: seq<nat>, ends: seq<nat>, c: Coordinate)
    requires |starts| == |ends|
  {
    c.partition < |starts| && starts[c.partition] <= c.offset < ends[c.partition]
  }

  function Row(p: nat, a: nat, b: nat): set<Coordinate>
    requires a <= b
  {
    set o | a <= o < b :: Coordinate(p, o)
  }

  /** The coordinates of a window. */
  function Window(starts: seq<nat>, ends: seq<nat>): set<Coordinate>
    requires IsWindow(starts, ends)
  {
    if starts == [] then {} else
      var n := |starts| - 1;
      Window(starts[..n], ends[..n]) + Row(n, starts[n], ends[n])
  }

  /** offset_delta: how many offsets the window spans. */
  function OffsetDelta(starts: seq<nat>, ends: seq<nat>): nat
    requires IsWindow(starts, ends)
  {
    if starts == [] then 0 else
      var n := |starts| - 1;
      OffsetDelta(starts[..n], ends[..n]) + (ends[n] - starts[n])
  }

  lemma {:induction false} RowSize(p: nat, a: nat, b: nat)
    requires a <= b
    ensures |Row(p, a, b)| == b - a
  {
    if a < b {
      RowSize(p, a, b - 1);
      assert Row(p, a, b) == Row(p, a, b - 1) + {Coordinate(p, b - 1)};
    } else {
      assert Row(p, a, b) == {};
    }
  }

  lemma {:induction false} WindowIs(starts: seq<nat>, ends: seq<nat>)
    requires IsWindow(starts, ends)
    ensures forall c :: c in Window(starts, ends) <==> InWindow(starts, ends, c)
    ensures |Window(starts, ends)| == OffsetDelta(starts, ends)
  {
    if starts != [] {
      var n := |starts| - 1;
      WindowIs(starts[..n], ends[..n]);
      RowSize(n, starts[n], ends[n]);
      assert Window(starts[..n], ends[..n]) !! Row(n, starts[n], ends[n]);
    }
  }

  // ----- reading a window -----

  /** What a poll of the consumer comes back with: nothing, an error, or the next message of a partition. */
  datatype Poll = Idle(timedOut: bool) | PollError | Deliver(partition: nat)

  /** The next offset to read of each assigned partition, and the coordinates taken so far. */
  datatype Reader = Reader(positions: seq<nat>, taken: seq<Coordinate>)

  function Assigned(starts: seq<nat>): Reader
  {
    Reader(starts, [])
  }

  /** A delivered message is skipped when it lies outside the window, and taken otherwise. */
  function Delivered(log: Log, starts: seq<nat>, ends: seq<nat>, r: Reader, p: nat): Reader
    requires |starts| == |ends|
  {
    if p < |r.positions| && Inside(log, Coordinate(p, r.positions[p])) then
      var at := Coordinate(p, r.positions[p]);
      Reader(r.positions[p := r.positions[p] + 1], if InWindow(starts, ends, at) then r.taken + [at] else r.taken)
    else r
  }

  /** Each coordinate is taken once, in the window and behind its partition's position. */
  ghost predicate ReaderFits(log: Log, starts: seq<nat>, ends: seq<nat>, r: Reader)
    requires |starts| == |ends|
  {
    && |r.positions| == |starts|
    && Distinct(r.taken)
    && forall i :: 0 <= i < |r.taken| ==> Took(log, starts, ends, r, r.taken[i])
  }

  predicate Took(log: Log, starts: seq<nat>, ends: seq<nat>, r: Reader, c: Coordinate)
    requires |starts| == |ends| == |r.positions|
  {
    Inside(log, c) && InWindow(starts, ends, c) && c.offset < r.positions[c.partition]
  }

  lemma DeliveredFits(log: Log, starts: seq<nat>, ends: seq<nat>, r: Reader, p: nat)
    requires |starts| == |ends| && ReaderFits(log, starts, ends, r)
    ensures ReaderFits(log, starts, ends, Delivered(log, starts, ends, r, p))
  {
    var after := Delivered(log, starts, ends, r, p);
    forall i | 0 <= i < |r.taken| ensures Took(log, starts, ends, after, r.taken[i]) {
      assert Took(log, starts, ends, r, r.taken[i]);
    }
  }

  /** A list of coordinates that is the window, each coordinate once. */
  ghost predicate ListsWindow(taken: seq<Coordinate>, starts: seq<nat>, ends: seq<nat>)
    requires IsWindow(starts, ends)
  {
    Distinct(taken) && SetOf(taken) == Window(starts, ends)
  }

  /** How a bounded read ends: with the messages taken, on a timeout or a consumer error, or not within these polls. */
  datatype ReadEnd = Finished(taken: seq<Coordinate>) | TimedOut | ReadFailed | StillPolling

  /** Polling until as many messages are taken as expected. */
  function Read(log: Log, starts: seq<nat>, ends: seq<nat>, expected: nat, polls: seq<Poll>, r: Reader): ReadEnd
    requires |starts| == |ends|
    decreases |polls|
  {
    if |r.taken| >= expected then Finished(r.taken)
    else if polls == [] then StillPolling
    else match polls[0]
      case Idle(timedOut) => if timedOut then TimedOut else Read(log, starts, ends, expected, polls[1..], r)
      case PollError => ReadFailed
      case Deliver(p) => Read(log, starts, ends, expected, polls[1..], Delivered(log, starts, ends, r, p))
  }

  /** What is read is a duplicate-free part of the window, and what is taken first stays first. */
  lemma {:induction false} ReadFits(log: Log, starts: seq<nat>, ends: seq<nat>, expected: nat, polls: seq<Poll>, r: Reader)
    requires |starts| == |ends| && ReaderFits(log, starts, ends, r) && |r.taken| <= expected
    requires Read(log, starts, ends, expected, polls, r).Finished?
    ensures var taken := Read(log, starts, ends, expected, polls, r).taken;
      && r.taken <= taken && |taken| == expected && Distinct(taken)
      && forall i :: 0 <= i < |taken| ==> Inside(log, taken[i]) && InWindow(starts, ends, taken[i])
    decreases |polls|
  {
    if |r.taken| == expected {
      forall i | 0 <= i < |r.taken| ensures Inside(log, r.taken[i]) && InWindow(starts, ends, r.taken[i]) {
        assert Took(log, starts, ends, r, r.taken[i]);
      }
    } else if polls[0].Deliver? {
      DeliveredFits(log, starts, ends, r, polls[0].partition);
      ReadFits(log, starts, ends, expected, polls[1..], Delivered(log, starts, ends, r, polls[0].partition));
    } else {
      ReadFits(log, starts, ends, expected, polls[1..], r);
    }
  }

  /** A read that finishes with as many messages as the window spans has read the window and nothing beyond it. */
  lemma ReadIsWindow(log: Log, starts: seq<nat>, ends: seq<nat>, polls: seq<Poll>)
    requires IsWindow(starts, ends) && Read(log, starts, ends, OffsetDelta(starts, ends), polls, Assigned(starts)).Finished?
    ensures ListsWindow(Read(log, starts, ends, OffsetDelta(starts, ends), polls, Assigned(starts)).taken, starts, ends)
  {
    var taken := Read(log, starts, ends, OffsetDelta(starts, ends), polls, Assigned(starts)).taken;
    ReadFits(log, starts, ends, OffsetDelta(starts, ends), polls, Assigned(starts));
    WindowIs(starts, ends);
    DistinctCardinality(taken);
    assert SetOf(taken) <= Window(starts, ends);
    SubsetCardinality(SetOf(taken), Window(starts, ends));
  }

  /** Appends after the window was recorded change nothing: a later read takes the window's messages as they stood then. */
  lemma LaterAppendsAreIgnored(log: Log, later: Log, starts: seq<nat>, ends: seq<nat>, polls: seq<Poll>)
    requires IsWindow(starts, ends) && Extends(later, log)
    requires forall p :: 0 <= p < |ends| ==> p < |log| && ends[p] <= |log[p]|
    requires Read(later, starts, ends, OffsetDelta(starts, ends), polls, Assigned(starts)).Finished?
    ensures var taken := Read(later, starts, ends, OffsetDelta(starts, ends), polls, Assigned(starts)).taken;
      && ListsWindow(taken, starts, ends)
      && forall i :: 0 <= i < |taken| ==> Inside(log, taken[i]) && SlotAt(later, taken[i]) == SlotAt(log, taken[i])
  {
    var taken := Read(later, starts, ends, OffsetDelta(starts, ends), polls, Assigned(starts)).taken;
    ReadIsWindow(later, starts, ends, polls);
    ReadFits(later, starts, ends, OffsetDelta(starts, ends), polls, Assigned(starts));
    forall i | 0 <= i < |taken| ensures Inside(log, taken[i]) && SlotAt(later, taken[i]) == SlotAt(log, taken[i]) {
      assert InWindow(starts, ends, taken[i]);
      ExtendedSlot(later, log, taken[i]);
    }
  }
}
