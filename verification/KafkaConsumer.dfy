/** The bounded diagnostic consumer: it reads a producer's window, and its quality checks say exactly what was in it. */
module KafkaConsumer {
  import opened Common
  import opened Counters
  import opened ReplayRecords
  import opened KafkaLog
  import opened KafkaProducer

  // ----- one message -----

  /** A consumed message, with the partition it came from. */
  datatype Arrival = Arrival(partition: nat, message: Message)

  /** The key as the consumer compares it: an empty one reads as null. */
  function KeyOf(m: Message): Json
  {
    if m.key == "" then Null else Str(m.key)
  }

  /** Decoding fails softly on bad JSON alone; anything else that is no object stops the consumer. */
  predicate Readable(c: Codec, a: Arrival)
  {
    c.parse(a.message.value).Object? || c.parse(a.message.value).NotJson?
  }

  function FieldAt(c: Codec, a: Arrival, f: Field): Json
  {
    match c.parse(a.message.value)
    case Object(event) => Get(event, f)
    case _ => Null
  }

  function NonEmptyText(j: Json): Option<string>
  {
    if j.Str? && j.s != "" then Some(j.s) else None
  }

  function Text(j: Json): Option<string>
  {
    if j.Str? then Some(j.s) else None
  }

  function Integer(j: Json): Option<int>
  {
    if j.Int? then Some(j.i) else None
  }

  function EventIdAt(c: Codec, a: Arrival): Option<string> { NonEmptyText(FieldAt(c, a, Overwritten(EventId))) }

  function DetectionAt(c: Codec, a: Arrival): Option<string> { NonEmptyText(FieldAt(c, a, DetectionId)) }

  function SourceAt(c: Codec, a: Arrival): Option<string> { Text(FieldAt(c, a, Overwritten(SourceType))) }

  function NumberAt(c: Codec, a: Arrival): Option<int> { Integer(FieldAt(c, a, Overwritten(ReplaySequenceNumber))) }

  function RoundAt(c: Codec, a: Arrival): Option<int> { Integer(FieldAt(c, a, Overwritten(ReplayIteration))) }

  predicate SyntheticAt(c: Codec, a: Arrival) { FieldAt(c, a, Overwritten(IsSynthetic)) == Bool(true) }

  predicate KeyMatches(c: Codec, a: Arrival) { PyEq(KeyOf(a.message), FieldAt(c, a, LineageRootId)) }

  // ----- the counters -----

  datatype Tally = Tally(
    consumed: nat, invalidJson: nat, keyMismatch: nat, missingEventId: nat, syntheticTrue: nat, byPartition: seq<nat>,
    eventIds: map<string, nat>, detectionIds: map<string, nat>, sourceTypes: map<string, nat>,
    sequences: set<int>, iterations: set<int>)

  function EmptyTally(partitions: nat): Tally
  {
    Tally(0, 0, 0, 0, 0, seq(partitions, p => 0), map[], map[], map[], {}, {})
  }

  function One(b: bool): nat { if b then 1 else 0 }

  function Added(s: set<int>, n: Option<int>): set<int>
  {
    s + if n.Some? then {n.value} else {}
  }

  /** The loop body: a message is counted, and what its event says is tallied. */
  function TallyArrival(c: Codec, t: Tally, a: Arrival): Tally
  {
    var counted := t.(consumed := t.consumed + 1,
                      byPartition := if a.partition < |t.byPartition| then KafkaLog.Counted(t.byPartition, a.partition) else t.byPartition);
    if !c.parse(a.message.value).Object? then counted.(invalidJson := t.invalidJson + 1)
    else counted.(
      keyMismatch := t.keyMismatch + One(!KeyMatches(c, a)),
      missingEventId := t.missingEventId + One(EventIdAt(c, a).None?),
      syntheticTrue := t.syntheticTrue + One(SyntheticAt(c, a)),
      eventIds := Counters.Counted(t.eventIds, EventIdAt(c, a)),
      detectionIds := Counters.Counted(t.detectionIds, DetectionAt(c, a)),
      sourceTypes := Counters.Counted(t.sourceTypes, SourceAt(c, a)),
      sequences := Added(t.sequences, NumberAt(c, a)),
      iterations := Added(t.iterations, RoundAt(c, a)))
  }

  function TallyOf(c: Codec, partitions: nat, arrivals: seq<Arrival>): Tally
  {
    if arrivals == [] then EmptyTally(partitions)
    else TallyArrival(c, TallyOf(c, partitions, arrivals[..|arrivals| - 1]), arrivals[|arrivals| - 1])
  }

  // ----- the checks -----

  datatype Expectations = Expectations(sourceType: string, syntheticTrue: int, detections: int, replayFactor: int)

  predicate SequencesComplete(s: set<int>, count: int)
  {
    |s| == count && s != {} && MinOf(s) == 0 && MaxOf(s) == count - 1
  }

  function Duplicates(counter: map<string, nat>): set<string>
  {
    set k | k in counter && counter[k] > 1
  }

  function RoundsUpTo(n: int): (rounds: set<int>)
    ensures forall i :: i in rounds <==> 1 <= i <= n
  {
    if n <= 0 then {} else RoundsUpTo(n - 1) + {n}
  }

  /** The quality checks; no event id counted twice is what a duplicate count of zero means. */
  predicate Checks(t: Tally, e: Expectations, expected: nat)
  {
    && t.consumed == expected
    && Total(t.byPartition) == t.consumed
    && t.invalidJson == 0 && t.missingEventId == 0 && t.keyMismatch == 0
    && |t.eventIds| == expected && Duplicates(t.eventIds) == {}
    && t.sourceTypes == map[e.sourceType := expected]
    && t.syntheticTrue == e.syntheticTrue
    && |t.detectionIds| == e.detections && t.detectionIds.Values == {e.replayFactor}
    && SequencesComplete(t.sequences, expected)
    && t.iterations == RoundsUpTo(e.replayFactor)
  }

  // ----- the consumer -----

  datatype ConsumeError =
    | ManifestNotReconciled | ReadEnded(end: ReadEnd) | Unreadable(message: Message) | ChecksFailed(tally: Tally)

  function ArrivalsOf(log: Log, taken: seq<Coordinate>): (arrivals: seq<Arrival>)
    requires forall i :: 0 <= i < |taken| ==> Inside(log, taken[i])
    ensures |arrivals| == |taken|
    ensures forall i :: 0 <= i < |taken| ==> arrivals[i] == Arrival(taken[i].partition, SlotAt(log, taken[i]).message)
  {
    seq(|taken|, i requires 0 <= i < |taken| => Arrival(taken[i].partition, SlotAt(log, taken[i]).message))
  }

  predicate AllInside(log: Log, taken: seq<Coordinate>)
  {
    forall i :: 0 <= i < |taken| ==> Inside(log, taken[i])
  }

  predicate AllReadable(c: Codec, log: Log, taken: seq<Coordinate>)
    requires AllInside(log, taken)
  {
    forall i :: 0 <= i < |taken| ==> Readable(c, Arrival(taken[i].partition, SlotAt(log, taken[i]).message))
  }

  /** The read a consumer of this manifest makes. */
  function ReadOf(m: ProducerManifest, log: Log, polls: seq<Poll>): ReadEnd
    requires |m.starts| == |m.ends|
  {
    Read(log, m.starts, m.ends, m.delivered, polls, Assigned(m.starts))
  }

  /** The tally of all messages of a finished read. */
  ghost predicate Tallied(c: Codec, m: ProducerManifest, log: Log, polls: seq<Poll>, t: Tally)
    requires |m.starts| == |m.ends|
  {
    var end := ReadOf(m, log, polls);
    && end.Finished? && AllInside(log, end.taken) && AllReadable(c, log, end.taken)
    && t == TallyOf(c, |m.starts|, ArrivalsOf(log, end.taken))
  }

  lemma AssignedFits(log: Log, starts: seq<nat>, ends: seq<nat>)
    requires |starts| == |ends|
    ensures ReaderFits(log, starts, ends, Assigned(starts))
  {
  }

  method ConsumeProducerRun(c: Codec, m: ProducerManifest, e: Expectations, log: Log, polls: seq<Poll>)
    returns (r: Result<Tally, ConsumeError>)
    requires |m.starts| == |m.ends|
    ensures r.Ok? ==> m.reconciled && Checks(r.value, e, m.delivered) && Tallied(c, m, log, polls, r.value)
    ensures r.Err? && r.error.ChecksFailed? ==> !Checks(r.error.tally, e, m.delivered) && Tallied(c, m, log, polls, r.error.tally)
    ensures r.Err? && r.error.ReadEnded? ==> ReadOf(m, log, polls) == r.error.end && !r.error.end.Finished?
    ensures r.Err? && r.error.Unreadable? ==> c.parse(r.error.message.value).NotObject? || c.parse(r.error.message.value).NotUtf8?
  {
    if !m.reconciled {
      return Err(ManifestNotReconciled);
    }
    var reader := Assigned(m.starts);
    var tally := EmptyTally(|m.starts|);
    AssignedFits(log, m.starts, m.ends);
    var next := 0;
    while |reader.taken| < m.delivered
      invariant next <= |polls| && |reader.taken| <= m.delivered
      invariant ReaderFits(log, m.starts, m.ends, reader) && AllInside(log, reader.taken)
      invariant Read(log, m.starts, m.ends, m.delivered, polls[next..], reader) == ReadOf(m, log, polls)
      invariant AllReadable(c, log, reader.taken)
      invariant tally == TallyOf(c, |m.starts|, ArrivalsOf(log, reader.taken))
      decreases |polls| - next
    {
      if next == |polls| {
        return Err(ReadEnded(StillPolling));
      }
      var poll := polls[next];
      assert polls[next..][1..] == polls[next + 1..];
      next := next + 1;
      if poll.PollError? {
        return Err(ReadEnded(ReadFailed));
      }
      if poll.Idle? {
        if poll.timedOut {
          return Err(ReadEnded(TimedOut));
        }
      } else {
        var after := Delivered(log, m.starts, m.ends, reader, poll.partition);
        DeliveredFits(log, m.starts, m.ends, reader, poll.partition);
        if |after.taken| > |reader.taken| {
          var at := Coordinate(poll.partition, reader.positions[poll.partition]);
          var arrival := Arrival(at.partition, SlotAt(log, at).message);
          if !Readable(c, arrival) {
            return Err(Unreadable(arrival.message));
          }
          TallyMore(c, |m.starts|, log, reader.taken, at);
          tally := TallyArrival(c, tally, arrival);
        }
        reader := after;
      }
    }
    return if Checks(tally, e, m.delivered) then Ok(tally) else Err(ChecksFailed(tally));
  }

  lemma TallyMore(c: Codec, partitions: nat, log: Log, taken: seq<Coordinate>, at: Coordinate)
    requires AllInside(log, taken) && Inside(log, at)
    ensures AllInside(log, taken + [at])
    ensures TallyOf(c, partitions, ArrivalsOf(log, taken + [at]))
         == TallyArrival(c, TallyOf(c, partitions, ArrivalsOf(log, taken)), Arrival(at.partition, SlotAt(log, at).message))
  {
    var all := ArrivalsOf(log, taken + [at]);
    assert all[..|taken|] == ArrivalsOf(log, taken);
  }
}
