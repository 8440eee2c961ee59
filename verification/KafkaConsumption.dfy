/** What a reconciled consumption establishes about the messages of the window. */
module KafkaConsumption {
  import opened Common
  import opened Counters
  import opened ReplayRecords
  import opened KafkaLog
  import opened KafkaProducer
  import opened KafkaAccounting
  import opened KafkaConsumer

  // ----- what each message says -----

  function EventIds(c: Codec, arrivals: seq<Arrival>): (keys: seq<Option<string>>)
    ensures |keys| == |arrivals| && forall i :: 0 <= i < |keys| ==> keys[i] == EventIdAt(c, arrivals[i])
  {
    seq(|arrivals|, i requires 0 <= i < |arrivals| => EventIdAt(c, arrivals[i]))
  }

  function Detections(c: Codec, arrivals: seq<Arrival>): (keys: seq<Option<string>>)
    ensures |keys| == |arrivals| && forall i :: 0 <= i < |keys| ==> keys[i] == DetectionAt(c, arrivals[i])
  {
    seq(|arrivals|, i requires 0 <= i < |arrivals| => DetectionAt(c, arrivals[i]))
  }

  function Sources(c: Codec, arrivals: seq<Arrival>): (keys: seq<Option<string>>)
    ensures |keys| == |arrivals| && forall i :: 0 <= i < |keys| ==> keys[i] == SourceAt(c, arrivals[i])
  {
    seq(|arrivals|, i requires 0 <= i < |arrivals| => SourceAt(c, arrivals[i]))
  }

  function Numbers(c: Codec, arrivals: seq<Arrival>): (keys: seq<Option<int>>)
    ensures |keys| == |arrivals| && forall i :: 0 <= i < |keys| ==> keys[i] == NumberAt(c, arrivals[i])
  {
    seq(|arrivals|, i requires 0 <= i < |arrivals| => NumberAt(c, arrivals[i]))
  }

  function Rounds(c: Codec, arrivals: seq<Arrival>): (keys: seq<Option<int>>)
    ensures |keys| == |arrivals| && forall i :: 0 <= i < |keys| ==> keys[i] == RoundAt(c, arrivals[i])
  {
    seq(|arrivals|, i requires 0 <= i < |arrivals| => RoundAt(c, arrivals[i]))
  }

  function Synthetics(c: Codec, arrivals: seq<Arrival>): (flags: seq<bool>)
    ensures |flags| == |arrivals| && forall i :: 0 <= i < |flags| ==> flags[i] == SyntheticAt(c, arrivals[i])
  {
    seq(|arrivals|, i requires 0 <= i < |arrivals| => SyntheticAt(c, arrivals[i]))
  }

  predicate IsObject(c: Codec, a: Arrival)
  {
    c.parse(a.message.value).Object?
  }

  // ----- what the counters hold -----

  lemma {:induction false} CountersHold(c: Codec, partitions: nat, arrivals: seq<Arrival>)
    ensures var t := TallyOf(c, partitions, arrivals);
      && t.eventIds == CounterOf(EventIds(c, arrivals))
      && t.detectionIds == CounterOf(Detections(c, arrivals))
      && t.sourceTypes == CounterOf(Sources(c, arrivals))
  {
    if arrivals != [] {
      var n := |arrivals| - 1;
      CountersHold(c, partitions, arrivals[..n]);
      CounterStep(c, TallyOf(c, partitions, arrivals[..n]), arrivals[n]);
      MoreKeys(EventIds(c, arrivals[..n]), EventIds(c, arrivals), EventIdAt(c, arrivals[n]));
      MoreKeys(Detections(c, arrivals[..n]), Detections(c, arrivals), DetectionAt(c, arrivals[n]));
      MoreKeys(Sources(c, arrivals[..n]), Sources(c, arrivals), SourceAt(c, arrivals[n]));
    }
  }

  lemma MoreKeys(before: seq<Option<string>>, after: seq<Option<string>>, key: Option<string>)
    requires |after| == |before| + 1 && after[|before|] == key && forall i :: 0 <= i < |before| ==> before[i] == after[i]
    ensures CounterOf(after) == Counters.Counted(CounterOf(before), key)
  {
    assert after == before + [key];
    CounterMore(before, key);
  }

  lemma CounterMore(keys: seq<Option<string>>, key: Option<string>)
    ensures CounterOf(keys + [key]) == Counters.Counted(CounterOf(keys), key)
  {
    assert (keys + [key])[..|keys|] == keys;
  }

  lemma CounterStep(c: Codec, t: Tally, a: Arrival)
    ensures var after := TallyArrival(c, t, a);
      && after.eventIds == Counters.Counted(t.eventIds, EventIdAt(c, a))
      && after.detectionIds == Counters.Counted(t.detectionIds, DetectionAt(c, a))
      && after.sourceTypes == Counters.Counted(t.sourceTypes, SourceAt(c, a))
  {
  }

  lemma SetStep(c: Codec, t: Tally, a: Arrival)
    ensures TallyArrival(c, t, a).sequences == Added(t.sequences, NumberAt(c, a))
    ensures TallyArrival(c, t, a).iterations == Added(t.iterations, RoundAt(c, a))
  {
  }

  lemma {:induction false} SetsHold(c: Codec, partitions: nat, arrivals: seq<Arrival>)
    ensures var t := TallyOf(c, partitions, arrivals);
      && t.sequences == Entries(Numbers(c, arrivals))
      && t.iterations == Entries(Rounds(c, arrivals))
  {
    if arrivals != [] {
      var n := |arrivals| - 1;
      SetsHold(c, partitions, arrivals[..n]);
      SetStep(c, TallyOf(c, partitions, arrivals[..n]), arrivals[n]);
      assert Numbers(c, arrivals)[..n] == Numbers(c, arrivals[..n]);
      assert Rounds(c, arrivals)[..n] == Rounds(c, arrivals[..n]);
    }
  }

  lemma SyntheticStep(c: Codec, t: Tally, a: Arrival)
    ensures TallyArrival(c, t, a).syntheticTrue == t.syntheticTrue + One(SyntheticAt(c, a))
  {
  }

  lemma {:induction false} SyntheticsHold(c: Codec, partitions: nat, arrivals: seq<Arrival>)
    ensures TallyOf(c, partitions, arrivals).syntheticTrue == |Positions(Synthetics(c, arrivals))|
  {
    if arrivals == [] {
      assert Positions(Synthetics(c, arrivals)) == {};
    } else {
      var n := |arrivals| - 1;
      SyntheticsHold(c, partitions, arrivals[..n]);
      SyntheticStep(c, TallyOf(c, partitions, arrivals[..n]), arrivals[n]);
      PositionsGrow(Synthetics(c, arrivals[..n]), SyntheticAt(c, arrivals[n]));
      assert Synthetics(c, arrivals) == Synthetics(c, arrivals[..n]) + [SyntheticAt(c, arrivals[n])];
    }
  }

  /** A message that is an object, has an event id, and matches its key. */
  predicate Sound(c: Codec, a: Arrival)
  {
    IsObject(c, a) && EventIdAt(c, a).Some? && KeyMatches(c, a)
  }

  ghost predicate AllSound(c: Codec, arrivals: seq<Arrival>)
  {
    forall i :: 0 <= i < |arrivals| ==> Sound(c, arrivals[i])
  }

  lemma AllSoundStep(c: Codec, arrivals: seq<Arrival>, n: nat)
    requires |arrivals| == n + 1
    ensures AllSound(c, arrivals) <==> AllSound(c, arrivals[..n]) && Sound(c, arrivals[n])
  {
    assert forall i :: 0 <= i < n ==> arrivals[..n][i] == arrivals[i];
  }

  predicate Clean(t: Tally)
  {
    t.invalidJson == 0 && t.missingEventId == 0 && t.keyMismatch == 0
  }

  lemma CleanStep(c: Codec, t: Tally, a: Arrival)
    ensures Clean(TallyArrival(c, t, a)) <==> Clean(t) && Sound(c, a)
  {
  }

  lemma CountStep(c: Codec, t: Tally, a: Arrival)
    requires a.partition < |t.byPartition|
    ensures TallyArrival(c, t, a).consumed == t.consumed + 1
    ensures TallyArrival(c, t, a).byPartition == KafkaLog.Counted(t.byPartition, a.partition)
  {
  }

  lemma {:induction false} ZerosHold(c: Codec, partitions: nat, arrivals: seq<Arrival>)
    requires forall i :: 0 <= i < |arrivals| ==> arrivals[i].partition < partitions
    ensures var t := TallyOf(c, partitions, arrivals);
      && t.consumed == |arrivals| == Total(t.byPartition) && |t.byPartition| == partitions
      && (Clean(t) <==> AllSound(c, arrivals))
  {
    if arrivals == [] {
      TotalZero(EmptyTally(partitions).byPartition);
    } else {
      var n := |arrivals| - 1;
      var before := TallyOf(c, partitions, arrivals[..n]);
      ZerosHold(c, partitions, arrivals[..n]);
      TotalCounted(before.byPartition, arrivals[n].partition);
      CleanStep(c, before, arrivals[n]);
      CountStep(c, before, arrivals[n]);
      AllSoundStep(c, arrivals, n);
    }
  }

  // ----- the checks, exactly -----

  /** What the window must contain for the quality checks to pass. */
  ghost predicate Complete(c: Codec, arrivals: seq<Arrival>, e: Expectations)
  {
    && arrivals != []
    && AllSound(c, arrivals)
    && AllDifferent(EventIds(c, arrivals))
    && AllFrom(c, arrivals, e.sourceType)
    && |Positions(Synthetics(c, arrivals))| == e.syntheticTrue
    && DetectionsRepeat(Detections(c, arrivals), e.detections, e.replayFactor)
    && NumbersComplete(Numbers(c, arrivals))
    && RoundsComplete(Rounds(c, arrivals), e.replayFactor)
  }

  ghost predicate AllFrom(c: Codec, arrivals: seq<Arrival>, sourceType: string)
  {
    forall i :: 0 <= i < |arrivals| ==> SourceAt(c, arrivals[i]) == Some(sourceType)
  }

  /** Exactly the iterations 1 to factor occur. */
  ghost predicate RoundsComplete(keys: seq<Option<int>>, factor: int)
  {
    forall i :: i in Entries(keys) <==> 1 <= i <= factor
  }

  /** So many different keys, at least one, each occurring factor times. */
  ghost predicate DetectionsRepeat(keys: seq<Option<string>>, count: int, factor: int)
  {
    Entries(keys) != {} && |Entries(keys)| == count && forall k :: k in Entries(keys) ==> Occurrences(keys, k) == factor
  }

  /** Every place has a number of its own below the number of places. */
  ghost predicate NumbersComplete(keys: seq<Option<int>>)
  {
    AllDifferent(keys) && forall i :: 0 <= i < |keys| ==> 0 <= keys[i].value < |keys|
  }

  lemma IdChecksExact(keys: seq<Option<string>>)
    ensures |CounterOf(keys)| == |keys| && Duplicates(CounterOf(keys)) == {} <==> AllDifferent(keys)
  {
    CounterIs(keys);
    FullEntries(keys);
    assert |CounterOf(keys)| == |CounterOf(keys).Keys|;
    if AllDifferent(keys) {
      forall k | k in CounterOf(keys) ensures CounterOf(keys)[k] <= 1 { OccursOnce(keys, k); }
    }
  }

  lemma {:induction false} OccursOnce(keys: seq<Option<string>>, k: string)
    requires Distinct(keys)
    ensures Occurrences(keys, k) <= 1
    ensures Occurrences(keys, k) == 1 ==> Some(k) in keys
  {
    if keys != [] {
      var n := |keys| - 1;
      OccursOnce(keys[..n], k);
      if keys[n] == Some(k) {
        assert Some(k) !in keys[..n];
      }
    }
  }

  lemma DetectionChecksExact(keys: seq<Option<string>>, count: int, factor: int)
    ensures |CounterOf(keys)| == count && CounterOf(keys).Values == {factor} <==> DetectionsRepeat(keys, count, factor)
  {
    CounterIs(keys);
    AllCounts(keys, factor);
    assert |CounterOf(keys)| == |CounterOf(keys).Keys|;
  }

  lemma NumberChecksExact(keys: seq<Option<int>>)
    ensures SequencesComplete(Entries(keys), |keys|) <==> keys != [] && NumbersComplete(keys)
  {
    FullEntries(keys);
    if keys != [] { FullNumbers(keys); }
  }

  /** The quality checks pass exactly when the consumed messages are complete: nothing the checks say is weaker than it. */
  lemma ChecksExact(c: Codec, partitions: nat, arrivals: seq<Arrival>, e: Expectations)
    requires forall i :: 0 <= i < |arrivals| ==> arrivals[i].partition < partitions
    ensures Checks(TallyOf(c, partitions, arrivals), e, |arrivals|) <==> Complete(c, arrivals, e)
  {
    var t := TallyOf(c, partitions, arrivals);
    ZerosHold(c, partitions, arrivals);
    CheckTextsExact(c, partitions, arrivals, e);
    CheckNumbersExact(c, partitions, arrivals, e);
    assert arrivals == [] ==> !SequencesComplete(t.sequences, |arrivals|);
  }

  lemma CheckTextsExact(c: Codec, partitions: nat, arrivals: seq<Arrival>, e: Expectations)
    ensures var t := TallyOf(c, partitions, arrivals);
      && (|t.eventIds| == |arrivals| && Duplicates(t.eventIds) == {} <==> AllDifferent(EventIds(c, arrivals)))
      && (arrivals != [] ==> (t.sourceTypes == map[e.sourceType := |arrivals|] <==> AllFrom(c, arrivals, e.sourceType)))
      && (|t.detectionIds| == e.detections && t.detectionIds.Values == {e.replayFactor}
          <==> DetectionsRepeat(Detections(c, arrivals), e.detections, e.replayFactor))
  {
    CountersHold(c, partitions, arrivals);
    IdChecksExact(EventIds(c, arrivals));
    DetectionChecksExact(Detections(c, arrivals), e.detections, e.replayFactor);
    if arrivals != [] { OnlyKey(Sources(c, arrivals), e.sourceType); }
  }

  lemma CheckNumbersExact(c: Codec, partitions: nat, arrivals: seq<Arrival>, e: Expectations)
    ensures var t := TallyOf(c, partitions, arrivals);
      && (SequencesComplete(t.sequences, |arrivals|) <==> arrivals != [] && NumbersComplete(Numbers(c, arrivals)))
      && (t.iterations == RoundsUpTo(e.replayFactor) <==> RoundsComplete(Rounds(c, arrivals), e.replayFactor))
      && t.syntheticTrue == |Positions(Synthetics(c, arrivals))|
  {
    SetsHold(c, partitions, arrivals);
    SyntheticsHold(c, partitions, arrivals);
    NumberChecksExact(Numbers(c, arrivals));
    RoundsExactly(Rounds(c, arrivals), e.replayFactor);
  }

  lemma RoundsExactly(keys: seq<Option<int>>, factor: int)
    ensures Entries(keys) == RoundsUpTo(factor) <==> RoundsComplete(keys, factor)
  {
  }

  // ----- main results -----

  /**
   * A reconciled consumption of a reconciled manifest has read the whole window, each message once and nothing else, and
   * the messages are complete.
   */
  lemma ReconciledConsumption(c: Codec, m: ProducerManifest, log: Log, polls: seq<Poll>, t: Tally, e: Expectations)
    requires IsWindow(m.starts, m.ends) && m.delivered == OffsetDelta(m.starts, m.ends)
    requires Tallied(c, m, log, polls, t) && Checks(t, e, m.delivered)
    ensures var taken := ReadOf(m, log, polls).taken;
      && ListsWindow(taken, m.starts, m.ends)
      && Complete(c, ArrivalsOf(log, taken), e)
  {
    var taken := ReadOf(m, log, polls).taken;
    AssignedFits(log, m.starts, m.ends);
    ReadFits(log, m.starts, m.ends, m.delivered, polls, Assigned(m.starts));
    ReadIsWindow(log, m.starts, m.ends, polls);
    forall i | 0 <= i < |taken| ensures taken[i].partition < |m.starts| { assert InWindow(m.starts, m.ends, taken[i]); }
    ChecksExact(c, |m.starts|, ArrivalsOf(log, taken), e);
  }

  /** Complete messages carry the sequence numbers 0 to n - 1, each exactly once. */
  lemma SequenceNumberOnce(c: Codec, arrivals: seq<Arrival>, e: Expectations, number: int) returns (i: nat)
    requires Complete(c, arrivals, e) && 0 <= number < |arrivals|
    ensures i < |arrivals| && NumberAt(c, arrivals[i]) == Some(number)
    ensures forall j :: 0 <= j < |arrivals| && NumberAt(c, arrivals[j]) == Some(number) ==> j == i
  {
    i := EveryNumberOnce(Numbers(c, arrivals), number);
    forall j | 0 <= j < |arrivals| && NumberAt(c, arrivals[j]) == Some(number) ensures j == i {
      assert Numbers(c, arrivals)[j] == Some(number);
    }
  }

  /** Their event ids are pairwise distinct, and each message's key is its lineage root. */
  lemma EventIdsDiffer(c: Codec, arrivals: seq<Arrival>, e: Expectations, i: nat, j: nat)
    requires Complete(c, arrivals, e) && i < j < |arrivals|
    ensures EventIdAt(c, arrivals[i]).Some? && EventIdAt(c, arrivals[i]) != EventIdAt(c, arrivals[j])
    ensures FieldAt(c, arrivals[i], LineageRootId) == KeyOf(arrivals[i].message)
  {
    assert EventIds(c, arrivals)[i] != EventIds(c, arrivals)[j];
    assert Sound(c, arrivals[i]);
    PyEqOnText(FieldAt(c, arrivals[i], LineageRootId), arrivals[i].message.key);
    KeyIsText(arrivals[i].message, FieldAt(c, arrivals[i], LineageRootId));
  }

  /** A key equals a JSON value only when the value is that very text, or null for no key. */
  lemma KeyIsText(m: Message, j: Json)
    ensures PyEq(KeyOf(m), j) <==> KeyOf(m) == j
  {
  }

  /**
   * Messages that carry a detection id number exactly detections times factor. The checks do not ask that every message
   * carries one: all do exactly when that product is the number of messages.
   */
  lemma DetectionCarriers(c: Codec, arrivals: seq<Arrival>, e: Expectations)
    requires Complete(c, arrivals, e)
    ensures Present(Detections(c, arrivals)) == e.detections * e.replayFactor
    ensures (forall i :: 0 <= i < |arrivals| ==> DetectionAt(c, arrivals[i]).Some?) <==> e.detections * e.replayFactor == |arrivals|
  {
    var keys := Detections(c, arrivals);
    CounterIs(keys);
    var k :| k in Entries(keys);
    PresentIsProduct(keys, e.replayFactor);
    PresentFull(keys);
  }

  // ----- from producer to consumer -----

  /**
   * A run over all partitions that reconciles, followed by a finished read of its manifest at any later time: the read takes
   * exactly the records of the run, each once, whatever has been appended since.
   */
  lemma ProducedThenConsumed(log: Log, messages: seq<Message>, script: Script, later: Log, polls: seq<Poll>)
    requires var t := TraceOf(log, |log|, messages, script);
      ManifestOfTrace(t).reconciled && Extends(later, t.end.broker.log) && ReadOf(ManifestOfTrace(t), later, polls).Finished?
    ensures var t := TraceOf(log, |log|, messages, script);
      var taken := ReadOf(ManifestOfTrace(t), later, polls).taken;
      && |taken| == |messages| && Distinct(taken)
      && (forall i: nat :: i < |messages| ==> i in t.flushed.places && t.flushed.places[i] in taken)
      && (forall k :: 0 <= k < |taken| ==> TookRecord(later, messages, taken[k]))
  {
    var t := TraceOf(log, |log|, messages, script);
    CoveredTopic(log, messages, script);
    ReconciledExactly(log, |log|, messages, script);
    TracesFit(log, |log|, messages, script);
    TraceSent(log, |log|, messages, script);
    DeltaIsWindow(t.start.offsets, t.end.offsets);
    HeldThenRead(t, FirstOffsets(log, t.start.offsets), messages, later, polls);
  }

  lemma HeldThenRead(t: Trace, first: seq<nat>, messages: seq<Message>, later: Log, polls: seq<Poll>)
    requires TraceFits(t, first) && IsWindow(t.start.offsets, t.end.offsets) && Extends(later, t.end.broker.log)
    requires HoldsRecords(t.end.broker.log, t.start.offsets, t.end.offsets, t.flushed.places, messages)
    requires OffsetDelta(t.start.offsets, t.end.offsets) == |messages|
    requires Read(later, t.start.offsets, t.end.offsets, |messages|, polls, Assigned(t.start.offsets)).Finished?
    ensures var taken := Read(later, t.start.offsets, t.end.offsets, |messages|, polls, Assigned(t.start.offsets)).taken;
      && |taken| == |messages| && Distinct(taken)
      && (forall i: nat :: i < |messages| ==> i in t.flushed.places && t.flushed.places[i] in taken)
      && (forall k :: 0 <= k < |taken| ==> TookRecord(later, messages, taken[k]))
  {
    var starts, ends := t.start.offsets, t.end.offsets;
    var taken := Read(later, starts, ends, |messages|, polls, Assigned(starts)).taken;
    LaterAppendsAreIgnored(t.end.broker.log, later, starts, ends, polls);
    WindowIs(starts, ends);
    DistinctCardinality(taken);
    forall i: nat | i < |messages| ensures t.flushed.places[i] in taken {
      assert HoldsRecord(t.end.broker.log, starts, ends, t.flushed.places[i], i, messages[i]);
      assert t.flushed.places[i] in SetOf(taken);
    }
    forall k | 0 <= k < |taken| ensures TookRecord(later, messages, taken[k]) {
      assert taken[k] in SetOf(taken);
      RecordTaken(t, messages, later, taken[k]);
    }
  }

  /** What was taken is one of the records, with its own content. */
  predicate TookRecord(later: Log, messages: seq<Message>, c: Coordinate)
  {
    && Inside(later, c) && SlotAt(later, c).own.Some?
    && var i := SlotAt(later, c).own.value; i < |messages| && SlotAt(later, c).message == messages[i]
  }

  lemma RecordTaken(t: Trace, messages: seq<Message>, later: Log, c: Coordinate)
    requires |t.start.offsets| == |t.end.offsets| && Extends(later, t.end.broker.log) && InWindow(t.start.offsets, t.end.offsets, c)
    requires HoldsRecords(t.end.broker.log, t.start.offsets, t.end.offsets, t.flushed.places, messages)
    ensures TookRecord(later, messages, c)
  {
    assert HeldSlot(t.end.broker.log, t.flushed.places, |messages|, c);
    var i := SlotAt(t.end.broker.log, c).own.value;
    assert HoldsRecord(t.end.broker.log, t.start.offsets, t.end.offsets, t.flushed.places[i], i, messages[i]);
    ExtendedSlot(later, t.end.broker.log, c);
  }
}
