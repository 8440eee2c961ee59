/** What a reconciled producer run means for the log it wrote to. */
module KafkaAccounting {
  import opened Common
  import opened KafkaLog
  import opened KafkaProducer

  // ----- the run's brokers -----

  /** Where the window opens in each partition; partitions outside it count from where the run found them. */
  function FirstOffsets(log: Log, starts: seq<nat>): (first: seq<nat>)
    requires |starts| <= |log|
    ensures |first| == |log| && forall p :: 0 <= p < |starts| ==> first[p] == starts[p]
  {
    seq(|log|, p requires 0 <= p < |log| => if p < |starts| then starts[p] else |log[p]|)
  }

  /** The offsets read lie between the lengths before and after the reading. */
  ghost predicate Between(offsets: seq<nat>, earlier: Log, later: Log)
  {
    |offsets| <= |earlier| && |offsets| <= |later| && forall p :: 0 <= p < |offsets| ==> |earlier[p]| <= offsets[p] <= |later[p]|
  }

  /** A reading from which the run's claims follow. */
  ghost predicate ReadingFits(b: Broker, w: Watermarks, first: seq<nat>)
  {
    Moves(b, w.broker, first) && Between(w.offsets, b.log, w.broker.log)
  }

  lemma {:induction false} ReadingMoves(b: Broker, first: seq<nat>, count: nat, batches: seq<seq<BrokerEvent>>)
    requires BrokerFits(b, first) && Reached(b.log, first) && count <= |b.log|
    ensures ReadingFits(b, ReadWatermarks(b, count, batches), first)
  {
    if count == 0 {
      NoReading(b, first);
    } else {
      ReadingMoves(b, first, count - 1, batches);
      NextReading(b, first, ReadWatermarks(b, count - 1, batches), Batch(batches, count - 1));
    }
  }

  lemma NoReading(b: Broker, first: seq<nat>)
    requires BrokerFits(b, first) && Reached(b.log, first)
    ensures ReadingFits(b, Watermarks([], b), first)
  {
  }

  lemma NextReading(b: Broker, first: seq<nat>, w: Watermarks, events: seq<BrokerEvent>)
    requires ReadingFits(b, w, first) && |w.offsets| < |b.log|
    ensures var now := HappenAll(w.broker, events);
      |w.offsets| < |now.log| && ReadingFits(b, Watermarks(w.offsets + [|now.log[|w.offsets|]|], now), first)
  {
    var now := HappenAll(w.broker, events);
    HappenAllFits(w.broker, first, events);
    GrowsTransitive(b, w.broker, now);
    NextOffset(w, b, now);
  }

  lemma NextOffset(w: Watermarks, b: Broker, now: Broker)
    requires Between(w.offsets, b.log, w.broker.log) && Grows(b, w.broker) && Grows(w.broker, now) && |w.offsets| < |b.log|
    ensures Between(w.offsets + [|now.log[|w.offsets|]|], b.log, now.log)
  {
    BetweenLater(w.offsets, b.log, w.broker.log, now.log);
  }

  lemma BetweenLater(offsets: seq<nat>, earlier: Log, log: Log, later: Log)
    requires Between(offsets, earlier, log) && Extends(log, earlier) && Extends(later, log) && |offsets| < |earlier|
    ensures Between(offsets + [|later[|offsets|]|], earlier, later)
  {
    forall p | 0 <= p <= |offsets| ensures |earlier[p]| <= |log[p]| <= |later[p]| {
      assert earlier[p] <= log[p] && log[p] <= later[p];
    }
  }

  lemma SendMoves(b: Broker, first: seq<nat>, messages: seq<Message>, batches: seq<seq<BrokerEvent>>)
    requires BrokerFits(b, first) && Reached(b.log, first)
    ensures var after := Send(b, messages, batches); BrokerFits(after, first) && Reached(after.log, first)
  {
    if messages != [] {
      var n := |messages| - 1;
      SendMoves(b, first, messages[..n], batches);
      var before := Send(b, messages[..n], batches);
      ProduceFits(before, first, messages[n]);
      HappenAllFits(Produce(before, messages[n]), first, Batch(batches, n));
    }
  }

  /** Before anything is sent, the window may open later than the run began. */
  lemma OpenLater(b: Broker, first: seq<nat>, later: seq<nat>)
    requires BrokerFits(b, first) && b.sent == [] && Reached(b.log, later)
    requires forall p :: 0 <= p < |first| ==> first[p] <= later[p]
    ensures BrokerFits(b, later)
  {
    assert forall i :: i in b.places ==> PlaceFits(b, first, i);
    assert b.places == map[];
    forall c | Inside(b.log, c) && c.offset >= later[c.partition] ensures SlotFits(b, c) {
    }
  }

  /** How the producer's broker stands once the start offsets are read. */
  lemma StartFits(log: Log, count: nat, batches: seq<seq<BrokerEvent>>)
    requires count <= |log|
    ensures var start := ReadWatermarks(FreshBroker(log), count, batches);
      var first := FirstOffsets(log, start.offsets);
      BrokerFits(start.broker, first) && Reached(start.broker.log, first)
  {
    var sizes := FirstOffsets(log, []);
    FreshFits(log, sizes);
    ReadingMoves(FreshBroker(log), sizes, count, batches);
    ReadingKeepsSent(FreshBroker(log), count, batches);
    var start := ReadWatermarks(FreshBroker(log), count, batches);
    forall p | 0 <= p < |log| ensures |log[p]| <= |start.broker.log[p]| { assert log[p] <= start.broker.log[p]; }
    OpenLater(start.broker, sizes, FirstOffsets(log, start.offsets));
  }

  /** The brokers of a run: what was sent is placed past the window's start and, at the flush, before its end. */
  ghost predicate TraceFits(t: Trace, first: seq<nat>)
  {
    && BrokerFits(t.flushed, first) && Moves(t.flushed, t.end.broker, first)
    && |t.start.offsets| == |t.end.offsets| <= |first|
    && Between(t.end.offsets, t.flushed.log, t.end.broker.log)
    && (forall p :: 0 <= p < |t.start.offsets| ==> t.start.offsets[p] == first[p] <= t.end.offsets[p])
  }

  lemma TracesFit(log: Log, count: nat, messages: seq<Message>, script: Script)
    requires count <= |log|
    ensures var t := TraceOf(log, count, messages, script); TraceFits(t, FirstOffsets(log, t.start.offsets))
  {
    var t := TraceOf(log, count, messages, script);
    var first := FirstOffsets(log, t.start.offsets);
    StartFits(log, count, script.starting);
    SendMoves(t.start.broker, first, messages, script.sending);
    HappenAllFits(Send(t.start.broker, messages, script.sending), first, script.flushing);
    ReadingMoves(t.flushed, first, count, script.ending);
    forall p | 0 <= p < count ensures first[p] <= t.end.offsets[p] {
      assert first[p] <= |t.flushed.log[p]| <= t.end.offsets[p];
    }
  }

  lemma {:induction false} DeltaIsWindow(starts: seq<nat>, ends: seq<nat>)
    requires IsWindow(starts, ends)
    ensures DeltaSum(starts, ends) == OffsetDelta(starts, ends)
  {
    if starts != [] { DeltaIsWindow(starts[..|starts| - 1], ends[..|ends| - 1]); }
  }

  // ----- what reconciled means -----

  /** Every record handed to the producer was acknowledged. */
  ghost predicate AllAcknowledged(b: Broker)
  {
    forall i: nat :: i < |b.sent| ==> i in b.acknowledged
  }

  lemma AcknowledgedExactly(b: Broker, first: seq<nat>)
    requires BrokerFits(b, first)
    ensures AllAcknowledged(b) <==> |b.sent| == |b.acknowledged|
    ensures AllAcknowledged(b) ==> b.failed == {} && Undelivered(b) == 0
    ensures AllAcknowledged(b) ==> |b.places| == |b.sent| && forall i: nat :: i < |b.sent| ==> i in b.places
  {
    AcknowledgedInside(b, first);
    NumbersBelow(b.acknowledged, |b.sent|);
    NumbersBelow(b.places.Keys, |b.sent|);
    if AllAcknowledged(b) {
      assert b.failed == {};
      assert b.acknowledged == b.places.Keys;
    }
  }

  lemma AcknowledgedInside(b: Broker, first: seq<nat>)
    requires BrokerFits(b, first)
    ensures forall i :: i in b.places ==> i < |b.sent|
    ensures forall i :: i in b.acknowledged ==> i < |b.sent|
  {
    assert forall i :: i in b.places ==> PlaceFits(b, first, i);
  }

  /** A set of numbers below n has n elements exactly when it has all of them. */
  lemma NumbersBelow(s: set<nat>, n: nat)
    requires forall i :: i in s ==> i < n
    ensures |s| <= n
    ensures |s| == n <==> forall i: nat :: i < n ==> i in s
  {
    var numbers: set<int> := set i | i in s;
    SameNumbers(s, numbers);
    FullRange(numbers, n);
    if forall i: nat :: i < n ==> i in s { assert numbers == RangeSet(n); }
  }

  lemma {:induction false} SameNumbers(a: set<nat>, b: set<int>)
    requires forall i :: i in b <==> i >= 0 && i in a
    ensures |a| == |b|
  {
    if a != {} {
      var e :| e in a;
      SameNumbers(a - {e}, b - {e});
    } else if b != {} {
      HasElement(b);
    }
  }

  /** A run reconciles exactly when every record was acknowledged and the window spans as many offsets as there were records. */
  lemma ReconciledExactly(log: Log, count: nat, messages: seq<Message>, script: Script)
    requires count <= |log|
    ensures var t := TraceOf(log, count, messages, script);
      && IsWindow(t.start.offsets, t.end.offsets)
      && (ManifestOfTrace(t).reconciled <==> AllAcknowledged(t.flushed) && |Window(t.start.offsets, t.end.offsets)| == |messages|)
  {
    var t := TraceOf(log, count, messages, script);
    TracesFit(log, count, messages, script);
    TraceSent(log, count, messages, script);
    AcknowledgedExactly(t.flushed, FirstOffsets(log, t.start.offsets));
    DeltaIsWindow(t.start.offsets, t.end.offsets);
    WindowIs(t.start.offsets, t.end.offsets);
  }

  /** The window holds the records, each at its own place, and nothing else. */
  ghost predicate HoldsRecords(log: Log, starts: seq<nat>, ends: seq<nat>, places: map<nat, Coordinate>, messages: seq<Message>)
    requires |starts| == |ends|
  {
    && (forall i: nat :: i < |messages| ==> i in places && HoldsRecord(log, starts, ends, places[i], i, messages[i]))
    && (forall c :: InWindow(starts, ends, c) ==> HeldSlot(log, places, |messages|, c))
  }

  /** This slot is the place of the record it says it is. */
  predicate HeldSlot(log: Log, places: map<nat, Coordinate>, n: nat, c: Coordinate)
  {
    && Inside(log, c) && SlotAt(log, c).own.Some?
    && var i := SlotAt(log, c).own.value; i < n && i in places && places[i] == c
  }

  predicate HoldsRecord(log: Log, starts: seq<nat>, ends: seq<nat>, c: Coordinate, i: nat, m: Message)
    requires |starts| == |ends|
  {
    InWindow(starts, ends, c) && Inside(log, c) && SlotAt(log, c) == Slot(m, Some(i))
  }

  /** A placed record lies in the window when its partition is one of the window's. */
  lemma PlaceInWindow(t: Trace, first: seq<nat>, i: nat)
    requires TraceFits(t, first) && i in t.flushed.places
    ensures i < |t.flushed.sent| && Inside(t.end.broker.log, t.flushed.places[i])
    ensures SlotAt(t.end.broker.log, t.flushed.places[i]) == Slot(t.flushed.sent[i], Some(i))
    ensures InWindow(t.start.offsets, t.end.offsets, t.flushed.places[i]) <==> t.flushed.places[i].partition < |t.start.offsets|
  {
    var c := t.flushed.places[i];
    assert PlaceFits(t.flushed, first, i);
    ExtendedSlot(t.end.broker.log, t.flushed.log, c);
    if c.partition < |t.start.offsets| {
      assert t.start.offsets[c.partition] == first[c.partition] <= c.offset < |t.flushed.log[c.partition]| <= t.end.offsets[c.partition];
    }
  }

  /** Different records have different places. */
  lemma PlacesDiffer(t: Trace, first: seq<nat>, i: nat, j: nat)
    requires TraceFits(t, first) && i in t.flushed.places && j in t.flushed.places && i != j
    ensures t.flushed.places[i] != t.flushed.places[j]
  {
    assert PlaceFits(t.flushed, first, i) && PlaceFits(t.flushed, first, j);
  }

  /** The places of the first n records. */
  function PlaceList(places: map<nat, Coordinate>, n: nat): (list: seq<Coordinate>)
    requires forall i: nat :: i < n ==> i in places
    ensures |list| == n && forall i: nat :: i < n ==> list[i] == places[i]
  {
    seq(n, i requires 0 <= i < n => places[i])
  }

  lemma PlacesCount(t: Trace, first: seq<nat>, n: nat)
    requires TraceFits(t, first) && forall i: nat :: i < n ==> i in t.flushed.places
    ensures |SetOf(PlaceList(t.flushed.places, n))| == n
  {
    var list := PlaceList(t.flushed.places, n);
    forall i, j | 0 <= i < j < n ensures list[i] != list[j] { PlacesDiffer(t, first, i, j); }
    DistinctCardinality(list);
  }

  /** No record was acknowledged from a partition whose offsets were not read. */
  predicate DeliveredInside(m: ProducerManifest)
    requires |m.starts| <= |m.deliveredBy|
  {
    forall p :: |m.starts| <= p < |m.deliveredBy| ==> m.deliveredBy[p] == 0
  }

  lemma DeliveredInsideExactly(t: Trace, first: seq<nat>)
    requires TraceFits(t, first) && AllAcknowledged(t.flushed)
    ensures |t.start.offsets| <= |t.flushed.deliveredBy|
    ensures DeliveredInside(ManifestOfTrace(t)) <==>
      forall i: nat :: i < |t.flushed.sent| ==> i in t.flushed.places && t.flushed.places[i].partition < |t.start.offsets|
  {
    var b := t.flushed;
    AcknowledgedExactly(b, first);
    if DeliveredInside(ManifestOfTrace(t)) {
      forall i: nat | i < |b.sent| ensures b.places[i].partition < |t.start.offsets| {
        assert PlaceFits(b, first, i);
        assert b.deliveredBy[b.places[i].partition] > 0;
      }
    }
    if forall i: nat :: i < |b.sent| ==> i in b.places && b.places[i].partition < |t.start.offsets| {
      forall p | |t.start.offsets| <= p < |b.deliveredBy| ensures b.deliveredBy[p] == 0 {
        forall i | i in b.acknowledged && i in b.places ensures b.places[i].partition != p {
          assert PlaceFits(b, first, i);
        }
      }
    }
  }

  /** When all records lie in partitions of the window, it spans as many offsets as there are records exactly when it holds them alone. */
  lemma HeldExactly(t: Trace, first: seq<nat>)
    requires TraceFits(t, first) && IsWindow(t.start.offsets, t.end.offsets)
    requires forall i: nat :: i < |t.flushed.sent| ==> i in t.flushed.places && t.flushed.places[i].partition < |t.start.offsets|
    ensures |Window(t.start.offsets, t.end.offsets)| == |t.flushed.sent| <==>
      HoldsRecords(t.end.broker.log, t.start.offsets, t.end.offsets, t.flushed.places, t.flushed.sent)
  {
    var list := PlaceList(t.flushed.places, |t.flushed.sent|);
    var window := Window(t.start.offsets, t.end.offsets);
    PlacesCount(t, first, |list|);
    forall i: nat | i < |list|
      ensures HoldsRecord(t.end.broker.log, t.start.offsets, t.end.offsets, list[i], i, t.flushed.sent[i])
    {
      PlaceInWindow(t, first, i);
    }
    ListInWindow(t, list);
    SubsetCardinality(SetOf(list), window);
    HeldByList(t, list);
  }

  lemma ListInWindow(t: Trace, list: seq<Coordinate>)
    requires IsWindow(t.start.offsets, t.end.offsets) && |list| == |t.flushed.sent|
    requires forall i: nat :: i < |list| ==>
      HoldsRecord(t.end.broker.log, t.start.offsets, t.end.offsets, list[i], i, t.flushed.sent[i])
    ensures SetOf(list) <= Window(t.start.offsets, t.end.offsets)
  {
    WindowIs(t.start.offsets, t.end.offsets);
    forall c | c in list ensures c in Window(t.start.offsets, t.end.offsets) {
      var i: nat :| i < |list| && list[i] == c;
      assert HoldsRecord(t.end.broker.log, t.start.offsets, t.end.offsets, list[i], i, t.flushed.sent[i]);
    }
  }

  /** What remains of holding the records is that the window lists no other place. */
  lemma HeldByList(t: Trace, list: seq<Coordinate>)
    requires IsWindow(t.start.offsets, t.end.offsets) && |list| == |t.flushed.sent|
    requires forall i: nat :: i < |list| ==> i in t.flushed.places && t.flushed.places[i] == list[i]
    requires forall i: nat :: i < |list| ==>
      HoldsRecord(t.end.broker.log, t.start.offsets, t.end.offsets, list[i], i, t.flushed.sent[i])
    ensures HoldsRecords(t.end.broker.log, t.start.offsets, t.end.offsets, t.flushed.places, t.flushed.sent)
      <==> SetOf(list) == Window(t.start.offsets, t.end.offsets)
  {
    var window := Window(t.start.offsets, t.end.offsets);
    WindowIs(t.start.offsets, t.end.offsets);
    ListInWindow(t, list);
    forall c | c in window ensures c in SetOf(list) <==> HeldSlot(t.end.broker.log, t.flushed.places, |list|, c) {
      ListedIsHeld(t, list, c);
    }
    AllHeld(t, SetOf(list), |list|);
  }

  lemma AllHeld(t: Trace, listed: set<Coordinate>, n: nat)
    requires IsWindow(t.start.offsets, t.end.offsets) && listed <= Window(t.start.offsets, t.end.offsets)
    requires forall c :: c in Window(t.start.offsets, t.end.offsets) ==>
      (c in listed <==> HeldSlot(t.end.broker.log, t.flushed.places, n, c))
    ensures listed == Window(t.start.offsets, t.end.offsets) <==>
      forall c :: InWindow(t.start.offsets, t.end.offsets, c) ==> HeldSlot(t.end.broker.log, t.flushed.places, n, c)
  {
    WindowIs(t.start.offsets, t.end.offsets);
  }

  lemma ListedIsHeld(t: Trace, list: seq<Coordinate>, c: Coordinate)
    requires |t.start.offsets| == |t.end.offsets| && |list| == |t.flushed.sent|
    requires forall i: nat :: i < |list| ==> i in t.flushed.places && t.flushed.places[i] == list[i]
    requires forall i: nat :: i < |list| ==>
      HoldsRecord(t.end.broker.log, t.start.offsets, t.end.offsets, list[i], i, t.flushed.sent[i])
    ensures c in list <==> HeldSlot(t.end.broker.log, t.flushed.places, |list|, c)
  {
    if c in list {
      var i: nat :| i < |list| && list[i] == c;
      assert HoldsRecord(t.end.broker.log, t.start.offsets, t.end.offsets, list[i], i, t.flushed.sent[i]);
    }
    if HeldSlot(t.end.broker.log, t.flushed.places, |list|, c) {
      assert list[SlotAt(t.end.broker.log, c).own.value] == c;
    }
  }

  /**
   * In a reconciled run the window holds exactly the attempted records, each once, if and only if no record was delivered
   * outside the partitions whose offsets were read. Other writers do not matter then: the counts leave no room for them.
   */
  lemma ReconciledWindowHoldsTheRecords(log: Log, count: nat, messages: seq<Message>, script: Script)
    requires count <= |log| && ManifestOfTrace(TraceOf(log, count, messages, script)).reconciled
    ensures var t := TraceOf(log, count, messages, script);
      && |t.start.offsets| <= |t.flushed.deliveredBy|
      && (HoldsRecords(t.end.broker.log, t.start.offsets, t.end.offsets, t.flushed.places, messages) <==> DeliveredInside(ManifestOfTrace(t)))
  {
    var t := TraceOf(log, count, messages, script);
    var first := FirstOffsets(log, t.start.offsets);
    TracesFit(log, count, messages, script);
    TraceSent(log, count, messages, script);
    ReconciledExactly(log, count, messages, script);
    DeliveredInsideExactly(t, first);
    if DeliveredInside(ManifestOfTrace(t)) {
      HeldExactly(t, first);
    }
    if HoldsRecords(t.end.broker.log, t.start.offsets, t.end.offsets, t.flushed.places, messages) {
      forall i: nat | i < |messages| ensures i in t.flushed.places && t.flushed.places[i].partition < |t.start.offsets| {
        assert HoldsRecord(t.end.broker.log, t.start.offsets, t.end.offsets, t.flushed.places[i], i, messages[i]);
      }
    }
  }

  /** When the offsets of every partition are read, reconciled means: all acknowledged, and the window is exactly the records. */
  lemma CoveredTopic(log: Log, messages: seq<Message>, script: Script)
    ensures var t := TraceOf(log, |log|, messages, script);
      ManifestOfTrace(t).reconciled <==>
        AllAcknowledged(t.flushed) && HoldsRecords(t.end.broker.log, t.start.offsets, t.end.offsets, t.flushed.places, messages)
  {
    var t := TraceOf(log, |log|, messages, script);
    var first := FirstOffsets(log, t.start.offsets);
    TracesFit(log, |log|, messages, script);
    TraceSent(log, |log|, messages, script);
    ReconciledExactly(log, |log|, messages, script);
    if AllAcknowledged(t.flushed) {
      AcknowledgedExactly(t.flushed, first);
      forall i: nat | i < |messages| ensures t.flushed.places[i].partition < |log| { assert PlaceFits(t.flushed, first, i); }
      HeldExactly(t, first);
    }
  }

  /** So it does for a sole writer: a window without foreign messages then holds exactly the records. */
  lemma SoleWriter(log: Log, count: nat, messages: seq<Message>, script: Script)
    requires count <= |log| && ManifestOfTrace(TraceOf(log, count, messages, script)).reconciled
    requires var t := TraceOf(log, count, messages, script);
      forall c :: InWindow(t.start.offsets, t.end.offsets, c) && Inside(t.end.broker.log, c) ==> SlotAt(t.end.broker.log, c).own.Some?
    ensures var t := TraceOf(log, count, messages, script);
      HoldsRecords(t.end.broker.log, t.start.offsets, t.end.offsets, t.flushed.places, messages)
  {
    var t := TraceOf(log, count, messages, script);
    var first := FirstOffsets(log, t.start.offsets);
    TracesFit(log, count, messages, script);
    TraceSent(log, count, messages, script);
    ReconciledExactly(log, count, messages, script);
    AcknowledgedExactly(t.flushed, first);
    OwnWindowHolds(t, first);
  }

  lemma OwnWindowHolds(t: Trace, first: seq<nat>)
    requires TraceFits(t, first) && IsWindow(t.start.offsets, t.end.offsets)
    requires forall i: nat :: i < |t.flushed.sent| ==> i in t.flushed.places
    requires |Window(t.start.offsets, t.end.offsets)| == |t.flushed.sent|
    requires forall c :: InWindow(t.start.offsets, t.end.offsets, c) && Inside(t.end.broker.log, c) ==> SlotAt(t.end.broker.log, c).own.Some?
    ensures HoldsRecords(t.end.broker.log, t.start.offsets, t.end.offsets, t.flushed.places, t.flushed.sent)
  {
    var n := |t.flushed.sent|;
    var window, list := Window(t.start.offsets, t.end.offsets), PlaceList(t.flushed.places, n);
    WindowIs(t.start.offsets, t.end.offsets);
    PlacesCount(t, first, n);
    forall c | c in window ensures c in SetOf(list) {
      OwnSlotIsHeld(t, first, c);
      assert list[SlotAt(t.end.broker.log, c).own.value] == c;
    }
    SubsetCardinality(window, SetOf(list));
    SoleWriterHolds(t, first, list);
  }

  lemma SoleWriterHolds(t: Trace, first: seq<nat>, list: seq<Coordinate>)
    requires TraceFits(t, first) && IsWindow(t.start.offsets, t.end.offsets) && |list| == |t.flushed.sent|
    requires forall i: nat :: i < |list| ==> i in t.flushed.places && t.flushed.places[i] == list[i]
    requires SetOf(list) == Window(t.start.offsets, t.end.offsets)
    ensures HoldsRecords(t.end.broker.log, t.start.offsets, t.end.offsets, t.flushed.places, t.flushed.sent)
  {
    WindowIs(t.start.offsets, t.end.offsets);
    forall i: nat | i < |list| ensures HoldsRecord(t.end.broker.log, t.start.offsets, t.end.offsets, list[i], i, t.flushed.sent[i]) {
      PlaceInWindow(t, first, i);
      assert list[i] in SetOf(list);
    }
    HeldByList(t, list);
  }

  lemma OwnSlotIsHeld(t: Trace, first: seq<nat>, c: Coordinate)
    requires TraceFits(t, first) && IsWindow(t.start.offsets, t.end.offsets) && InWindow(t.start.offsets, t.end.offsets, c)
    requires Inside(t.end.broker.log, c) ==> SlotAt(t.end.broker.log, c).own.Some?
    requires forall i: nat :: i < |t.flushed.sent| ==> i in t.flushed.places
    ensures HeldSlot(t.end.broker.log, t.flushed.places, |t.flushed.sent|, c)
  {
    var b := t.end.broker;
    assert Inside(b.log, c) && SlotFits(b, c);
    var i := SlotAt(b.log, c).own.value;
    assert PlaceFits(b, first, i);
    assert t.flushed.places[i] == c;
  }

  function DeceivingEvents(foreign: Message): seq<BrokerEvent>
  {
    [Append(0, 1), Foreign(0, foreign), Acknowledge(0)]
  }

  const TWO_EMPTY_PARTITIONS: Log := [[], []]

  lemma DeceivedBroker(m: Message, foreign: Message)
    ensures var b := HappenAll(Produce(FreshBroker(TWO_EMPTY_PARTITIONS), m), DeceivingEvents(foreign));
      && b.sent == [m] && b.places == map[0 := Coordinate(1, 0)] && b.acknowledged == {0} && b.failed == {}
      && b.deliveredBy == [0, 1] && |b.log[0]| == 1
  {
    var batch := DeceivingEvents(foreign);
    var b := Produce(FreshBroker(TWO_EMPTY_PARTITIONS), m);
    var b1 := Happen(b, Append(0, 1));
    var b2 := Happen(b1, Foreign(0, foreign));
    assert HappenAll(b, []) == b;
    assert HappenAll(b, batch[..1]) == b1 by { assert batch[..1][..0] == []; }
    assert HappenAll(b, batch[..2]) == b2 by { assert batch[..2][..1] == batch[..1]; }
    assert HappenAll(b, batch) == Happen(b2, Acknowledge(0));
  }

  /**
   * Without that condition it fails: with two partitions, one of them read, a record delivered to the other and a foreign
   * message appended to the first, the counts match although the window holds no record at all.
   */
  lemma UnreadPartitionsCanDeceive(m: Message, foreign: Message)
    ensures var t := TraceOf(TWO_EMPTY_PARTITIONS, 1, [m], Script([], [DeceivingEvents(foreign)], [], []));
      && ManifestOfTrace(t).reconciled
      && !HoldsRecords(t.end.broker.log, t.start.offsets, t.end.offsets, t.flushed.places, [m])
  {
    var batches := [DeceivingEvents(foreign)];
    var unused := FreshBroker(TWO_EMPTY_PARTITIONS);
    var t := TraceOf(TWO_EMPTY_PARTITIONS, 1, [m], Script([], batches, [], []));
    DeceivedBroker(m, foreign);
    NothingRead(unused);
    assert [m][..0] == [] && Send(unused, [], batches) == unused;
    NothingRead(t.flushed);
    assert t.flushed == HappenAll(Produce(unused, m), DeceivingEvents(foreign));
    assert t.start.offsets == [0] && t.end.offsets == [1];
    assert [0, 1][..1] == [0] && Total([0]) == 0 && Total([0, 1]) == 1;
    assert DeltaSum([0], [1]) == 1;
    assert !HoldsRecord(t.end.broker.log, t.start.offsets, t.end.offsets, t.flushed.places[0], 0, m);
  }

  lemma NothingRead(b: Broker)
    requires |b.log| > 0
    ensures ReadWatermarks(b, 1, []) == Watermarks([|b.log[0]|], b)
    ensures HappenAll(b, []) == b
  {
    assert HappenAll(b, Batch([], 0)) == b;
    assert ReadWatermarks(b, 0, []) == Watermarks([], b);
  }
}
