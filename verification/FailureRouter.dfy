/** Routing the messages of a bounded window: what fails validation is rejected, what exhausts its attempts goes to the DLQ. */
module FailureRouter {
  import opened Common
  import opened ReplayRecords
  import opened KafkaLog
  import opened KafkaProducer
  import opened KafkaConsumer

  datatype RoutingType = REJECTED | DLQ

  datatype Reason =
    | Missing(field: Field)
    | INVALID_SCHEMA_VERSION | INVALID_REPLAY_CLASSIFICATION | INVALID_LATITUDE | INVALID_LONGITUDE | KAFKA_KEY_LINEAGE_MISMATCH
    | CORRUPT_JSON | PROCESSING_RETRIES_EXHAUSTED

  /** What a routed message says; the reason codes are written in sorted order, so they are a set here. */
  datatype Envelope = Envelope(version: string, kind: string, sourceTopic: string, sourcePartition: int, sourceOffset: int,
                               messageKey: Json, eventId: Json, lineage: Json, reasons: set<Reason>, attempts: int,
                               failureCategory: Option<string>, original: Option<Event>)

  /** A message read back: no JSON, JSON that the verifier cannot use and stops at, or an envelope. */
  datatype ParsedEnvelope = NoEnvelope | UnusableEnvelope | Parsed(envelope: Envelope)

  /** What is computed elsewhere: JSON, the whitespace that strip removes, and str() of JSON values that are no text. */
  datatype RouterCodec = RouterCodec(events: Codec, render: Envelope -> Bytes, parse: Bytes -> ParsedEnvelope,
                                     isSpace: char -> bool, str: Json -> string)

  const ENVELOPE_VERSION: string := "1.0.0"

  function KindName(kind: RoutingType): string
  {
    if kind == REJECTED then "REJECTED" else "DLQ"
  }

  // ----- validation -----

  const REQUIRED_TEXT_FIELDS: set<Field> :=
    {Overwritten(EventId), LineageRootId, Overwritten(SourceType), Other("source_dataset"), SourceRecordId,
     Other("ingestion_run_id"), Other("event_timestamp"), Other("ingestion_timestamp"), Other("schema_version")}

  /** Text with something left after strip. */
  predicate HasText(rc: RouterCodec, j: Json)
  {
    j.Str? && exists i :: 0 <= i < |j.s| && !rc.isSpace(j.s[i])
  }

  /** A number, not a boolean, whose absolute value is within the bound; NaN is within none. */
  predicate WithinBound(j: Json, bound: real)
  {
    match j
    case Int(i) => -bound <= i as real <= bound
    case Float(r) => -bound <= r <= bound
    case _ => false
  }

  function If(condition: bool, reason: Reason): set<Reason>
  {
    if condition then {reason} else {}
  }

  function MissingFields(rc: RouterCodec, event: Event): set<Reason>
  {
    set f | f in REQUIRED_TEXT_FIELDS && !HasText(rc, Get(event, f)) :: Missing(f)
  }

  /** validation_errors, as the set it sorts. */
  function ValidationErrors(rc: RouterCodec, event: Event, key: Json): set<Reason>
  {
    MissingFields(rc, event)
    + If(Get(event, Other("schema_version")) != Str("1.0.0"), INVALID_SCHEMA_VERSION)
    + If(Get(event, Overwritten(SourceType)) != Str("NASA_REPLAY") || Get(event, Overwritten(IsSynthetic)) != Bool(false),
         INVALID_REPLAY_CLASSIFICATION)
    + If(!WithinBound(Get(event, Other("latitude")), 90.0), INVALID_LATITUDE)
    + If(!WithinBound(Get(event, Other("longitude")), 180.0), INVALID_LONGITUDE)
    + If(!PyEq(key, Get(event, LineageRootId)), KAFKA_KEY_LINEAGE_MISMATCH)
  }

  /** Processing fails in every attempt; nothing else makes an attempt fail. */
  predicate Exhausts(event: Event)
  {
    Get(event, Other("_test_fault_mode")) == Str("EXHAUST_RETRIES")
  }

  datatype Processed = Processed(succeeded: bool, attempts: int, failureCategory: Option<string>)

  datatype RouteError =
    | SourceNotReconciled | UnknownOutputPartition | AttemptsNotPositive | SourceReadEnded(end: ReadEnd)
    | VerificationReadEnded(end: ReadEnd) | EnvelopeUnusable | RoutingNotReconciled(manifest: RoutingManifest)

  /** The retry loop: success in the first attempt, or failure after exactly max_attempts. */
  method ProcessWithBoundedAttempts(event: Event, maxAttempts: int) returns (r: Result<Processed, RouteError>)
    ensures r.Err? <==> maxAttempts <= 0
    ensures r.Err? ==> r.error == AttemptsNotPositive
    ensures r.Ok? ==> r.value == (if Exhausts(event) then Processed(false, maxAttempts, Some("RuntimeError")) else Processed(true, 1, None))
  {
    if maxAttempts <= 0 {
      return Err(AttemptsNotPositive);
    }
    var attempt := 1;
    while attempt <= maxAttempts
      invariant 1 <= attempt <= maxAttempts
      invariant attempt > 1 ==> Exhausts(event)
    {
      if !Exhausts(event) {
        return Ok(Processed(true, attempt, None));
      }
      if attempt == maxAttempts {
        return Ok(Processed(false, attempt, Some("RuntimeError")));
      }
      attempt := attempt + 1;
    }
  }

  // ----- one message -----

  datatype Decision = Pass | Route(kind: RoutingType, envelope: Envelope)

  function Reasons(rc: RouterCodec, m: Message): set<Reason>
  {
    match rc.events.parse(m.value)
    case Object(event) => ValidationErrors(rc, event, KeyOf(m))
    case _ => {CORRUPT_JSON}
  }

  function EventOf(rc: RouterCodec, m: Message): Option<Event>
  {
    match rc.events.parse(m.value)
    case Object(event) => Some(event)
    case _ => None
  }

  function FieldOf(event: Option<Event>, f: Field): Json
  {
    if event.Some? then Get(event.value, f) else Null
  }

  function BuildEnvelope(kind: RoutingType, topic: string, c: Coordinate, m: Message, event: Option<Event>, reasons: set<Reason>,
                         attempts: int, failureCategory: Option<string>): Envelope
  {
    Envelope(ENVELOPE_VERSION, KindName(kind), topic, c.partition, c.offset, KeyOf(m), FieldOf(event, Overwritten(EventId)),
             FieldOf(event, LineageRootId), reasons, attempts, failureCategory, event)
  }

  /** What becomes of the message at a coordinate. */
  function DecisionOf(rc: RouterCodec, topic: string, maxAttempts: int, c: Coordinate, m: Message): Decision
  {
    var event, reasons := EventOf(rc, m), Reasons(rc, m);
    if reasons != {} then Route(REJECTED, BuildEnvelope(REJECTED, topic, c, m, event, reasons, 0, None))
    else if event.Some? && Exhausts(event.value) then
      Route(DLQ, BuildEnvelope(DLQ, topic, c, m, event, {PROCESSING_RETRIES_EXHAUSTED}, maxAttempts, Some("RuntimeError")))
    else Pass
  }

  method Decide(rc: RouterCodec, topic: string, maxAttempts: int, c: Coordinate, m: Message) returns (r: Result<Decision, RouteError>)
    ensures r.Ok? <==> Reasons(rc, m) != {} || maxAttempts > 0
    ensures r.Ok? ==> r.value == DecisionOf(rc, topic, maxAttempts, c, m)
    ensures r.Err? ==> r.error == AttemptsNotPositive
  {
    var parsed := rc.events.parse(m.value);
    var event: Option<Event> := None;
    var errors := {CORRUPT_JSON};
    if parsed.Object? {
      event := Some(parsed.event);
      errors := ValidationErrors(rc, parsed.event, KeyOf(m));
    }
    if errors != {} {
      return Ok(Route(REJECTED, BuildEnvelope(REJECTED, topic, c, m, event, errors, 0, None)));
    }
    var processed := ProcessWithBoundedAttempts(event.value, maxAttempts);
    if processed.Err? {
      return Err(processed.error);
    }
    if processed.value.succeeded {
      return Ok(Pass);
    }
    return Ok(Route(DLQ, BuildEnvelope(DLQ, topic, c, m, event, {PROCESSING_RETRIES_EXHAUSTED}, processed.value.attempts,
                                       processed.value.failureCategory)));
  }

  /** str(value): a text is itself, and null is the word None. */
  function PyStr(rc: RouterCodec, j: Json): string
  {
    match j
    case Str(s) => s
    case Null => "None"
    case _ => rc.str(j)
  }

  function RoutedMessage(rc: RouterCodec, e: Envelope): Message
  {
    Message(PyStr(rc, e.lineage), rc.render(e))
  }

  // ----- the routed messages -----

  /** The source window's read, and the routing it is part of. */
  datatype Source = Source(topic: string, log: Log, maxAttempts: int)

  function DecisionAt(rc: RouterCodec, s: Source, c: Coordinate): Decision
    requires Inside(s.log, c)
  {
    DecisionOf(rc, s.topic, s.maxAttempts, c, SlotAt(s.log, c).message)
  }

  predicate RoutedTo(rc: RouterCodec, s: Source, kind: RoutingType, c: Coordinate)
    requires Inside(s.log, c)
  {
    DecisionAt(rc, s, c).Route? && DecisionAt(rc, s, c).kind == kind
  }

  /** The coordinates routed to one topic, in the order they were read. */
  function RoutedFrom(rc: RouterCodec, s: Source, kind: RoutingType, taken: seq<Coordinate>): seq<Coordinate>
    requires AllInside(s.log, taken)
  {
    if taken == [] then [] else
      var n := |taken| - 1;
      RoutedFrom(rc, s, kind, taken[..n]) + if RoutedTo(rc, s, kind, taken[n]) then [taken[n]] else []
  }

  /** The messages produced to one topic. */
  function RoutedMessages(rc: RouterCodec, s: Source, kind: RoutingType, taken: seq<Coordinate>): seq<Message>
    requires AllInside(s.log, taken)
  {
    if taken == [] then [] else
      var n := |taken| - 1;
      RoutedMessages(rc, s, kind, taken[..n])
      + if RoutedTo(rc, s, kind, taken[n]) then [RoutedMessage(rc, DecisionAt(rc, s, taken[n]).envelope)] else []
  }

  function PassedCount(rc: RouterCodec, s: Source, taken: seq<Coordinate>): nat
    requires AllInside(s.log, taken)
  {
    if taken == [] then 0 else
      PassedCount(rc, s, taken[..|taken| - 1]) + if DecisionAt(rc, s, taken[|taken| - 1]).Pass? then 1 else 0
  }

  // ----- verification -----

  datatype Verification = Verification(consumed: nat, invalidEnvelopes: nat, keyMismatches: nat, coordinates: set<(string, int, int)>)

  predicate EnvelopeFits(kind: RoutingType, e: Envelope)
  {
    e.kind == KindName(kind) && e.version == ENVELOPE_VERSION
  }

  /** The body of the verification loop. */
  function VerifyArrival(rc: RouterCodec, kind: RoutingType, v: Verification, m: Message): Verification
  {
    match rc.parse(m.value)
    case Parsed(e) =>
      Verification(v.consumed + 1, v.invalidEnvelopes + One(!EnvelopeFits(kind, e)), v.keyMismatches + One(!PyEq(KeyOf(m), e.lineage)),
                   v.coordinates + {(e.sourceTopic, e.sourcePartition, e.sourceOffset)})
    case _ => v.(consumed := v.consumed + 1, invalidEnvelopes := v.invalidEnvelopes + 1)
  }

  function VerificationOf(rc: RouterCodec, kind: RoutingType, arrivals: seq<Arrival>): Verification
  {
    if arrivals == [] then Verification(0, 0, 0, {})
    else VerifyArrival(rc, kind, VerificationOf(rc, kind, arrivals[..|arrivals| - 1]), arrivals[|arrivals| - 1].message)
  }

  predicate IsVerified(v: Verification, expected: nat)
  {
    v.consumed == expected && v.invalidEnvelopes == 0 && v.keyMismatches == 0 && |v.coordinates| == expected
  }

  method VerifyRoutedRange(rc: RouterCodec, kind: RoutingType, log: Log, starts: seq<nat>, ends: seq<nat>, expected: nat, polls: seq<Poll>)
    returns (r: Result<Verification, RouteError>)
    requires |starts| == |ends|
    ensures r.Ok? ==> RangeVerified(rc, kind, log, starts, ends, expected, polls, r.value)
    ensures r.Err? ==> (r.error.VerificationReadEnded? && r.error.end == Read(log, starts, ends, expected, polls, Assigned(starts))) || r.error == EnvelopeUnusable
    ensures r.Err? && r.error.VerificationReadEnded? ==> !r.error.end.Finished?
  {
    var reader := Assigned(starts);
    var v := Verification(0, 0, 0, {});
    AssignedFits(log, starts, ends);
    var next := 0;
    while |reader.taken| < expected
      invariant next <= |polls| && |reader.taken| <= expected
      invariant ReaderFits(log, starts, ends, reader) && AllInside(log, reader.taken)
      invariant Read(log, starts, ends, expected, polls[next..], reader) == Read(log, starts, ends, expected, polls, Assigned(starts))
      invariant v == VerificationOf(rc, kind, ArrivalsOf(log, reader.taken))
      decreases |polls| - next
    {
      if next == |polls| {
        return Err(VerificationReadEnded(StillPolling));
      }
      var poll := polls[next];
      assert polls[next..][1..] == polls[next + 1..];
      next := next + 1;
      if poll.PollError? {
        return Err(VerificationReadEnded(ReadFailed));
      }
      if poll.Idle? {
        if poll.timedOut {
          return Err(VerificationReadEnded(TimedOut));
        }
      } else {
        var after := Delivered(log, starts, ends, reader, poll.partition);
        DeliveredFits(log, starts, ends, reader, poll.partition);
        if |after.taken| > |reader.taken| {
          var at := Coordinate(poll.partition, reader.positions[poll.partition]);
          var verified := VerifyNext(rc, kind, log, reader.taken, at, v);
          if verified.None? {
            return Err(EnvelopeUnusable);
          }
          v := verified.value;
        }
        reader := after;
      }
    }
    return Ok(v);
  }

  /** One message of a routed range is verified, unless its envelope cannot be read at all. */
  method VerifyNext(rc: RouterCodec, kind: RoutingType, log: Log, ghost taken: seq<Coordinate>, at: Coordinate, v: Verification)
    returns (after: Option<Verification>)
    requires AllInside(log, taken) && Inside(log, at) && v == VerificationOf(rc, kind, ArrivalsOf(log, taken))
    ensures after.None? <==> rc.parse(SlotAt(log, at).message.value).UnusableEnvelope?
    ensures AllInside(log, taken + [at])
    ensures after.Some? ==> after.value == VerificationOf(rc, kind, ArrivalsOf(log, taken + [at]))
  {
    var message := SlotAt(log, at).message;
    if rc.parse(message.value).UnusableEnvelope? {
      return None;
    }
    assert ArrivalsOf(log, taken + [at])[..|taken|] == ArrivalsOf(log, taken);
    return Some(VerifyArrival(rc, kind, v, message));
  }

  /** The verification of all messages of a finished read of a routed range. */
  ghost predicate RangeVerified(rc: RouterCodec, kind: RoutingType, log: Log, starts: seq<nat>, ends: seq<nat>, expected: nat,
                                polls: seq<Poll>, v: Verification)
    requires |starts| == |ends|
  {
    var end := Read(log, starts, ends, expected, polls, Assigned(starts));
    end.Finished? && AllInside(log, end.taken) && v == VerificationOf(rc, kind, ArrivalsOf(log, end.taken))
  }

  // ----- the router -----

  /** What happens on one output topic, and how its verification is polled. */
  datatype Output = Output(log: Log, script: Script, verifying: seq<BrokerEvent>, polls: seq<Poll>)

  const OUTPUT_PARTITIONS: nat := 3

  datatype RoutingManifest = RoutingManifest(
    sourceConsumed: nat, passed: nat, rejected: ProducerManifest, dlq: ProducerManifest,
    rejectedVerified: bool, dlqVerified: bool, reconciled: bool)

  /** Both topics deliver all they were sent, the counts add up, the windows span what was delivered, and both verify. */
  predicate RoutingReconciled(consumed: nat, passed: nat, r: ProducerManifest, d: ProducerManifest, rv: bool, dv: bool)
  {
    && consumed == passed + r.delivered + d.delivered
    && r.failures + d.failures == 0
    && r.undelivered + d.undelivered == 0
    && r.offsetDelta == r.delivered && d.offsetDelta == d.delivered
    && rv && dv
  }

  function OutputTrace(rc: RouterCodec, s: Source, kind: RoutingType, taken: seq<Coordinate>, o: Output): (t: Trace)
    requires AllInside(s.log, taken) && OUTPUT_PARTITIONS <= |o.log|
    ensures |t.start.offsets| == |t.end.offsets| == OUTPUT_PARTITIONS
  {
    TraceOf(o.log, OUTPUT_PARTITIONS, RoutedMessages(rc, s, kind, taken), o.script)
  }

  /** The log of an output topic when its range is verified. */
  function VerifiedLog(t: Trace, o: Output): Log
  {
    HappenAll(t.end.broker, o.verifying).log
  }

  /** The producing side of one output topic: its broker, and how many messages were produced to it. */
  datatype Lane = Lane(broker: Broker, count: nat)

  /** A decision's message is produced when it is for this topic. */
  function LaneAfter(rc: RouterCodec, kind: RoutingType, batches: seq<seq<BrokerEvent>>, lane: Lane, d: Decision): Lane
  {
    if d.Route? && d.kind == kind
    then Lane(HappenAll(Produce(lane.broker, RoutedMessage(rc, d.envelope)), Batch(batches, lane.count)), lane.count + 1)
    else lane
  }

  /** The lane after routing the coordinates taken so far. */
  ghost predicate LaneFits(rc: RouterCodec, s: Source, kind: RoutingType, taken: seq<Coordinate>, start: Broker,
                           batches: seq<seq<BrokerEvent>>, lane: Lane)
    requires AllInside(s.log, taken)
  {
    && lane.broker == Send(start, RoutedMessages(rc, s, kind, taken), batches)
    && lane.count == |RoutedMessages(rc, s, kind, taken)|
  }

  lemma LaneStep(rc: RouterCodec, s: Source, kind: RoutingType, taken: seq<Coordinate>, c: Coordinate, start: Broker,
                 batches: seq<seq<BrokerEvent>>, lane: Lane)
    requires AllInside(s.log, taken) && Inside(s.log, c) && LaneFits(rc, s, kind, taken, start, batches, lane)
    ensures AllInside(s.log, taken + [c])
    ensures LaneFits(rc, s, kind, taken + [c], start, batches, LaneAfter(rc, kind, batches, lane, DecisionAt(rc, s, c)))
  {
    assert (taken + [c])[..|taken|] == taken;
    if RoutedTo(rc, s, kind, c) {
      SendMore(start, RoutedMessages(rc, s, kind, taken), RoutedMessage(rc, DecisionAt(rc, s, c).envelope), batches);
    } else {
      assert RoutedMessages(rc, s, kind, taken + [c]) == RoutedMessages(rc, s, kind, taken);
    }
  }

  lemma PassedStep(rc: RouterCodec, s: Source, taken: seq<Coordinate>, c: Coordinate)
    requires AllInside(s.log, taken) && Inside(s.log, c)
    ensures AllInside(s.log, taken + [c])
    ensures PassedCount(rc, s, taken + [c]) == PassedCount(rc, s, taken) + if DecisionAt(rc, s, c).Pass? then 1 else 0
  {
    assert (taken + [c])[..|taken|] == taken;
  }

  datatype Routed = Routed(consumed: nat, passed: nat, rejected: Lane, dlq: Lane)

  /** How the router's counters and lanes stand after the coordinates taken so far. */
  ghost predicate RoutedFits(rc: RouterCodec, s: Source, taken: seq<Coordinate>, r: Broker, d: Broker, ro: Output, dq: Output, now: Routed)
    requires AllInside(s.log, taken)
  {
    && now.consumed == |taken| && now.passed == PassedCount(rc, s, taken)
    && LaneFits(rc, s, REJECTED, taken, r, ro.script.sending, now.rejected)
    && LaneFits(rc, s, DLQ, taken, d, dq.script.sending, now.dlq)
  }

  /** The body of the source loop: the message is decided, and produced to its topic unless it passed. */
  method RouteOne(rc: RouterCodec, s: Source, c: Coordinate, ro: Output, dq: Output, ghost taken: seq<Coordinate>,
                  ghost r: Broker, ghost d: Broker, before: Routed)
    returns (result: Result<Routed, RouteError>)
    requires AllInside(s.log, taken) && Inside(s.log, c)
    requires RoutedFits(rc, s, taken, r, d, ro, dq, before)
    ensures result.Ok? <==> Reasons(rc, SlotAt(s.log, c).message) != {} || s.maxAttempts > 0
    ensures result.Err? ==> result.error == AttemptsNotPositive
    ensures AllInside(s.log, taken + [c])
    ensures result.Ok? ==> RoutedFits(rc, s, taken + [c], r, d, ro, dq, result.value)
  {
    var decided := Decide(rc, s.topic, s.maxAttempts, c, SlotAt(s.log, c).message);
    RoutedStep(rc, s, c, ro, dq, taken, r, d, before);
    if decided.Err? {
      return Err(decided.error);
    }
    return Ok(RoutedAfter(rc, ro, dq, before, decided.value));
  }

  /** One message more: consumed, and either passed or on its way to the topic it is routed to. */
  function RoutedAfter(rc: RouterCodec, ro: Output, dq: Output, before: Routed, d: Decision): Routed
  {
    Routed(before.consumed + 1, before.passed + if d.Pass? then 1 else 0,
           LaneAfter(rc, REJECTED, ro.script.sending, before.rejected, d), LaneAfter(rc, DLQ, dq.script.sending, before.dlq, d))
  }

  lemma RoutedStep(rc: RouterCodec, s: Source, c: Coordinate, ro: Output, dq: Output, taken: seq<Coordinate>, r: Broker, d: Broker, before: Routed)
    requires AllInside(s.log, taken) && Inside(s.log, c)
    requires RoutedFits(rc, s, taken, r, d, ro, dq, before)
    ensures AllInside(s.log, taken + [c])
    ensures RoutedFits(rc, s, taken + [c], r, d, ro, dq, RoutedAfter(rc, ro, dq, before, DecisionAt(rc, s, c)))
  {
    LaneStep(rc, s, REJECTED, taken, c, r, ro.script.sending, before.rejected);
    LaneStep(rc, s, DLQ, taken, c, d, dq.script.sending, before.dlq);
    PassedStep(rc, s, taken, c);
  }

  /** The source loop over the window of the producer's manifest. */
  method RouteSource(rc: RouterCodec, m: ProducerManifest, s: Source, polls: seq<Poll>, r: Broker, d: Broker, ro: Output, dq: Output)
    returns (result: Result<Routed, RouteError>)
    requires |m.starts| == |m.ends|
    ensures result.Ok? ==> ReadOf(m, s.log, polls).Finished? && AllInside(s.log, ReadOf(m, s.log, polls).taken)
    ensures result.Ok? ==> RoutedFits(rc, s, ReadOf(m, s.log, polls).taken, r, d, ro, dq, result.value)
    ensures result.Err? && s.maxAttempts > 0 ==> !ReadOf(m, s.log, polls).Finished? && result.error == SourceReadEnded(ReadOf(m, s.log, polls))
    ensures result.Err? ==> result.error.SourceReadEnded? || result.error.AttemptsNotPositive?
  {
    var reader := Assigned(m.starts);
    var now := Routed(0, 0, Lane(r, 0), Lane(d, 0));
    AssignedFits(s.log, m.starts, m.ends);
    var next := 0;
    while |reader.taken| < m.delivered
      invariant next <= |polls|
      invariant ReaderFits(s.log, m.starts, m.ends, reader) && AllInside(s.log, reader.taken)
      invariant Read(s.log, m.starts, m.ends, m.delivered, polls[next..], reader) == ReadOf(m, s.log, polls)
      invariant RoutedFits(rc, s, reader.taken, r, d, ro, dq, now)
      decreases |polls| - next
    {
      if next == |polls| {
        return Err(SourceReadEnded(StillPolling));
      }
      var poll := polls[next];
      assert polls[next..][1..] == polls[next + 1..];
      next := next + 1;
      if poll.PollError? {
        return Err(SourceReadEnded(ReadFailed));
      }
      if poll.Idle? {
        if poll.timedOut {
          return Err(SourceReadEnded(TimedOut));
        }
      } else {
        var after := Delivered(s.log, m.starts, m.ends, reader, poll.partition);
        DeliveredFits(s.log, m.starts, m.ends, reader, poll.partition);
        if |after.taken| > |reader.taken| {
          var routed := RouteOne(rc, s, Coordinate(poll.partition, reader.positions[poll.partition]), ro, dq, reader.taken, r, d, now);
          if routed.Err? {
            return Err(routed.error);
          }
          now := routed.value;
        }
        reader := after;
      }
    }
    return Ok(now);
  }

  /** Flush, offsets, and verification of one output topic. */
  method Conclude(rc: RouterCodec, kind: RoutingType, ghost s: Source, ghost taken: seq<Coordinate>, start: Watermarks, lane: Lane, o: Output)
    returns (m: ProducerManifest, verdict: Result<bool, RouteError>)
    requires AllInside(s.log, taken) && OUTPUT_PARTITIONS <= |o.log|
    requires start == ReadWatermarks(FreshBroker(o.log), OUTPUT_PARTITIONS, o.script.starting)
    requires LaneFits(rc, s, kind, taken, start.broker, o.script.sending, lane)
    ensures m == ManifestOfTrace(OutputTrace(rc, s, kind, taken, o))
    ensures verdict.Ok? ==> Verifies(rc, kind, OutputTrace(rc, s, kind, taken, o), o, verdict.value)
    ensures verdict.Err? ==> !verdict.error.RoutingNotReconciled?
  {
    var flushed := HappenAll(lane.broker, o.script.flushing);
    var end := PartitionWatermarks(flushed, OUTPUT_PARTITIONS, o.script.ending);
    m := ManifestOf(flushed, start.offsets, end.value.offsets);
    var now := HappenAll(end.value.broker, o.verifying);
    var verified := VerifyRoutedRange(rc, kind, now.log, m.starts, m.ends, m.delivered, o.polls);
    verdict := if verified.Ok? then Ok(IsVerified(verified.value, m.delivered)) else Err(verified.error);
  }

  /** What a finished routing was: the read of the source, and for each topic its manifest and its verification. */
  ghost predicate RoutingFits(rc: RouterCodec, source: ProducerManifest, s: Source, polls: seq<Poll>, ro: Output, dq: Output,
                              m: RoutingManifest)
    requires |source.starts| == |source.ends| && OUTPUT_PARTITIONS <= |ro.log| && OUTPUT_PARTITIONS <= |dq.log|
  {
    var end := ReadOf(source, s.log, polls);
    && end.Finished? && AllInside(s.log, end.taken)
    && m.sourceConsumed == |end.taken| && m.passed == PassedCount(rc, s, end.taken)
    && m.rejected == ManifestOfTrace(OutputTrace(rc, s, REJECTED, end.taken, ro))
    && m.dlq == ManifestOfTrace(OutputTrace(rc, s, DLQ, end.taken, dq))
    && Verifies(rc, REJECTED, OutputTrace(rc, s, REJECTED, end.taken, ro), ro, m.rejectedVerified)
    && Verifies(rc, DLQ, OutputTrace(rc, s, DLQ, end.taken, dq), dq, m.dlqVerified)
    && m.reconciled == RoutingReconciled(m.sourceConsumed, m.passed, m.rejected, m.dlq, m.rejectedVerified, m.dlqVerified)
  }

  /** The verification of a topic finishes, with this verdict. */
  ghost predicate Verifies(rc: RouterCodec, kind: RoutingType, t: Trace, o: Output, verdict: bool)
    requires |t.start.offsets| == |t.end.offsets|
  {
    var m := ManifestOfTrace(t);
    exists v :: RangeVerified(rc, kind, VerifiedLog(t, o), m.starts, m.ends, m.delivered, o.polls, v) && verdict == IsVerified(v, m.delivered)
  }

  method RouteFailures(rc: RouterCodec, source: ProducerManifest, topic: string, maxAttempts: int, log: Log, polls: seq<Poll>,
                       ro: Output, dq: Output)
    returns (r: Result<RoutingManifest, RouteError>)
    requires |source.starts| == |source.ends|
    ensures r.Ok? ==> source.reconciled && OUTPUT_PARTITIONS <= |ro.log| && OUTPUT_PARTITIONS <= |dq.log|
    ensures r.Ok? ==> r.value.reconciled && RoutingFits(rc, source, Source(topic, log, maxAttempts), polls, ro, dq, r.value)
    ensures r.Err? && r.error.RoutingNotReconciled? ==> OUTPUT_PARTITIONS <= |ro.log| && OUTPUT_PARTITIONS <= |dq.log|
    ensures r.Err? && r.error.RoutingNotReconciled? ==>
      !r.error.manifest.reconciled && RoutingFits(rc, source, Source(topic, log, maxAttempts), polls, ro, dq, r.error.manifest)
  {
    if !source.reconciled {
      return Err(SourceNotReconciled);
    }
    var s := Source(topic, log, maxAttempts);
    var rs := PartitionWatermarks(FreshBroker(ro.log), OUTPUT_PARTITIONS, ro.script.starting);
    var ds := PartitionWatermarks(FreshBroker(dq.log), OUTPUT_PARTITIONS, dq.script.starting);
    if rs.None? || ds.None? {
      return Err(UnknownOutputPartition);
    }
    var routed := RouteSource(rc, source, s, polls, rs.value.broker, ds.value.broker, ro, dq);
    if routed.Err? {
      return Err(routed.error);
    }
    r := Settle(rc, source, s, polls, ro, dq, rs.value, ds.value, routed.value);
  }

  /** What follows the source loop: both topics are concluded, and the counts compared. */
  method Settle(rc: RouterCodec, ghost source: ProducerManifest, ghost s: Source, ghost polls: seq<Poll>, ro: Output, dq: Output,
                rs: Watermarks, ds: Watermarks, routed: Routed)
    returns (r: Result<RoutingManifest, RouteError>)
    requires |source.starts| == |source.ends| && OUTPUT_PARTITIONS <= |ro.log| && OUTPUT_PARTITIONS <= |dq.log|
    requires rs == ReadWatermarks(FreshBroker(ro.log), OUTPUT_PARTITIONS, ro.script.starting)
    requires ds == ReadWatermarks(FreshBroker(dq.log), OUTPUT_PARTITIONS, dq.script.starting)
    requires ReadOf(source, s.log, polls).Finished? && AllInside(s.log, ReadOf(source, s.log, polls).taken)
    requires RoutedFits(rc, s, ReadOf(source, s.log, polls).taken, rs.broker, ds.broker, ro, dq, routed)
    ensures r.Ok? ==> r.value.reconciled && RoutingFits(rc, source, s, polls, ro, dq, r.value)
    ensures r.Err? && r.error.RoutingNotReconciled? ==>
      !r.error.manifest.reconciled && RoutingFits(rc, source, s, polls, ro, dq, r.error.manifest)
  {
    ghost var taken := ReadOf(source, s.log, polls).taken;
    var rm, rv := Conclude(rc, REJECTED, s, taken, rs, routed.rejected, ro);
    var dm, dv := Conclude(rc, DLQ, s, taken, ds, routed.dlq, dq);
    if rv.Err? {
      return Err(rv.error);
    }
    if dv.Err? {
      return Err(dv.error);
    }
    var reconciled := RoutingReconciled(routed.consumed, routed.passed, rm, dm, rv.value, dv.value);
    var manifest := RoutingManifest(routed.consumed, routed.passed, rm, dm, rv.value, dv.value, reconciled);
    return if reconciled then Ok(manifest) else Err(RoutingNotReconciled(manifest));
  }
}
