/** What a reconciled routing means for the source window and the two output topics. */
module RoutingAccounting {
  import opened Common
  import opened ReplayRecords
  import opened KafkaLog
  import opened KafkaProducer
  import opened KafkaAccounting
  import opened KafkaConsumer
  import opened KafkaConsumption
  import opened FailureRouter

  // ----- where each message goes -----

  /** The event is valid in the router's sense. */
  predicate Valid(rc: RouterCodec, m: Message)
  {
    Reasons(rc, m) == {}
  }

  /**
   * Every message has exactly one fate: rejected exactly when it has validation errors, in the DLQ exactly when it is valid
   * and fails all its attempts, and passed otherwise.
   */
  lemma FateExact(rc: RouterCodec, s: Source, c: Coordinate)
    requires Inside(s.log, c)
    ensures var m := SlotAt(s.log, c).message;
      && (RoutedTo(rc, s, REJECTED, c) <==> !Valid(rc, m))
      && (RoutedTo(rc, s, DLQ, c) <==> Valid(rc, m) && Exhausts(EventOf(rc, m).value))
      && (DecisionAt(rc, s, c).Pass? <==> Valid(rc, m) && !Exhausts(EventOf(rc, m).value))
  {
    var m := SlotAt(s.log, c).message;
    assert EventOf(rc, m).None? ==> CORRUPT_JSON in Reasons(rc, m);
  }

  /** A message is valid exactly when it is a JSON object with its nine texts, the right version and class, coordinates on the globe, and its lineage root as key. */
  lemma ValidExactly(rc: RouterCodec, m: Message)
    ensures Valid(rc, m) <==>
      && EventOf(rc, m).Some?
      && var e := EventOf(rc, m).value;
      && (forall f :: f in REQUIRED_TEXT_FIELDS ==> HasText(rc, Get(e, f)))
      && Get(e, Other("schema_version")) == Str("1.0.0")
      && Get(e, Overwritten(SourceType)) == Str("NASA_REPLAY") && Get(e, Overwritten(IsSynthetic)) == Bool(false)
      && WithinBound(Get(e, Other("latitude")), 90.0) && WithinBound(Get(e, Other("longitude")), 180.0)
      && KeyOf(m) == Get(e, LineageRootId)
  {
    if EventOf(rc, m).Some? {
      NoErrorsExactly(rc, EventOf(rc, m).value, m);
    } else {
      assert CORRUPT_JSON in Reasons(rc, m);
    }
  }

  lemma NoErrorsExactly(rc: RouterCodec, e: Event, m: Message)
    ensures ValidationErrors(rc, e, KeyOf(m)) == {} <==>
      && (forall f :: f in REQUIRED_TEXT_FIELDS ==> HasText(rc, Get(e, f)))
      && Get(e, Other("schema_version")) == Str("1.0.0")
      && Get(e, Overwritten(SourceType)) == Str("NASA_REPLAY") && Get(e, Overwritten(IsSynthetic)) == Bool(false)
      && WithinBound(Get(e, Other("latitude")), 90.0) && WithinBound(Get(e, Other("longitude")), 180.0)
      && KeyOf(m) == Get(e, LineageRootId)
  {
    KeyIsText(m, Get(e, LineageRootId));
    MissingExactly(rc, e, KeyOf(m));
    ClassCodesExactly(rc, e, KeyOf(m));
    BoundCodesExactly(rc, e, KeyOf(m));
    KeyCodeExactly(rc, e, KeyOf(m));
    OnlyTheseReasons(rc, e, KeyOf(m));
  }

  lemma MissingExactly(rc: RouterCodec, e: Event, key: Json)
    ensures forall f :: Missing(f) in ValidationErrors(rc, e, key) <==> f in REQUIRED_TEXT_FIELDS && !HasText(rc, Get(e, f))
  {
  }

  lemma ClassCodesExactly(rc: RouterCodec, e: Event, key: Json)
    ensures INVALID_SCHEMA_VERSION in ValidationErrors(rc, e, key) <==> Get(e, Other("schema_version")) != Str("1.0.0")
    ensures INVALID_REPLAY_CLASSIFICATION in ValidationErrors(rc, e, key) <==>
      Get(e, Overwritten(SourceType)) != Str("NASA_REPLAY") || Get(e, Overwritten(IsSynthetic)) != Bool(false)
  {
  }

  lemma BoundCodesExactly(rc: RouterCodec, e: Event, key: Json)
    ensures INVALID_LATITUDE in ValidationErrors(rc, e, key) <==> !WithinBound(Get(e, Other("latitude")), 90.0)
    ensures INVALID_LONGITUDE in ValidationErrors(rc, e, key) <==> !WithinBound(Get(e, Other("longitude")), 180.0)
  {
  }

  lemma KeyCodeExactly(rc: RouterCodec, e: Event, key: Json)
    ensures KAFKA_KEY_LINEAGE_MISMATCH in ValidationErrors(rc, e, key) <==> !PyEq(key, Get(e, LineageRootId))
  {
  }

  lemma OnlyTheseReasons(rc: RouterCodec, e: Event, key: Json)
    ensures var errors := ValidationErrors(rc, e, key);
      errors == {} <==>
        && (forall f :: Missing(f) !in errors)
        && INVALID_SCHEMA_VERSION !in errors && INVALID_REPLAY_CLASSIFICATION !in errors
        && INVALID_LATITUDE !in errors && INVALID_LONGITUDE !in errors && KAFKA_KEY_LINEAGE_MISMATCH !in errors
  {
    var errors := ValidationErrors(rc, e, key);
    forall r | r in errors
      ensures r.Missing? || r in {INVALID_SCHEMA_VERSION, INVALID_REPLAY_CLASSIFICATION, INVALID_LATITUDE, INVALID_LONGITUDE, KAFKA_KEY_LINEAGE_MISMATCH}
    {
    }
  }

  lemma {:induction false} RoutedFromIs(rc: RouterCodec, s: Source, kind: RoutingType, taken: seq<Coordinate>)
    requires AllInside(s.log, taken)
    ensures forall c :: c in RoutedFrom(rc, s, kind, taken) <==> c in taken && RoutedTo(rc, s, kind, c)
    ensures Distinct(taken) ==> Distinct(RoutedFrom(rc, s, kind, taken))
  {
    if taken != [] {
      var n := |taken| - 1;
      RoutedFromIs(rc, s, kind, taken[..n]);
      assert taken == taken[..n] + [taken[n]];
      if Distinct(taken) { DistinctFront(taken); }
    }
  }

  lemma DistinctFront(taken: seq<Coordinate>)
    requires taken != [] && Distinct(taken)
    ensures Distinct(taken[..|taken| - 1]) && taken[|taken| - 1] !in taken[..|taken| - 1]
  {
    forall i | 0 <= i < |taken| - 1 ensures taken[i] != taken[|taken| - 1] {
    }
  }

  /** The messages produced to a topic are the envelopes of the coordinates routed to it, in order. */
  lemma {:induction false} RoutedMessagesAre(rc: RouterCodec, s: Source, kind: RoutingType, taken: seq<Coordinate>)
    requires AllInside(s.log, taken)
    ensures var from, messages := RoutedFrom(rc, s, kind, taken), RoutedMessages(rc, s, kind, taken);
      && |messages| == |from|
      && forall i :: 0 <= i < |from| ==> MessageFrom(rc, s, kind, from[i], messages[i])
  {
    if taken != [] {
      RoutedMessagesAre(rc, s, kind, taken[..|taken| - 1]);
    }
  }

  predicate MessageFrom(rc: RouterCodec, s: Source, kind: RoutingType, c: Coordinate, m: Message)
  {
    Inside(s.log, c) && RoutedTo(rc, s, kind, c) && m == RoutedMessage(rc, DecisionAt(rc, s, c).envelope)
  }

  /** Nothing is lost or counted twice on the way. */
  lemma {:induction false} FatesAddUp(rc: RouterCodec, s: Source, taken: seq<Coordinate>)
    requires AllInside(s.log, taken)
    ensures |taken| == PassedCount(rc, s, taken) + |RoutedMessages(rc, s, REJECTED, taken)| + |RoutedMessages(rc, s, DLQ, taken)|
  {
    if taken != [] {
      FatesAddUp(rc, s, taken[..|taken| - 1]);
    }
  }

  // ----- keys and lineage -----

  /** The message's event carries a lineage root: a text that is not empty. */
  predicate CarriesLineage(rc: RouterCodec, m: Message)
  {
    EventOf(rc, m).Some? && HasLineage(EventOf(rc, m).value)
  }

  /** The envelopes of these coordinates read back as written. */
  ghost predicate EnvelopesReadBack(rc: RouterCodec, s: Source, taken: seq<Coordinate>)
    requires AllInside(s.log, taken)
  {
    forall i :: 0 <= i < |taken| ==> EnvelopeReadsBack(rc, s, taken[i])
  }

  predicate EnvelopeReadsBack(rc: RouterCodec, s: Source, c: Coordinate)
    requires Inside(s.log, c)
  {
    DecisionAt(rc, s, c).Route? ==> rc.parse(rc.render(DecisionAt(rc, s, c).envelope)) == Parsed(DecisionAt(rc, s, c).envelope)
  }

  /** The produced key is what the verification expects exactly when the lineage root is a text that is not empty. */
  lemma KeyAgreesExactly(rc: RouterCodec, e: Envelope)
    ensures PyEq(KeyOf(RoutedMessage(rc, e)), e.lineage) <==> e.lineage.Str? && e.lineage.s != ""
  {
    KeyIsText(RoutedMessage(rc, e), e.lineage);
  }

  /** A message without lineage root is always rejected. */
  lemma NoLineageIsRejected(rc: RouterCodec, s: Source, c: Coordinate)
    requires Inside(s.log, c)
    ensures CarriesLineage(rc, SlotAt(s.log, c).message) || RoutedTo(rc, s, REJECTED, c)
  {
    var m := SlotAt(s.log, c).message;
    if EventOf(rc, m).Some? {
      var event := EventOf(rc, m).value;
      assert LineageRootId in REQUIRED_TEXT_FIELDS;
      assert !HasText(rc, Get(event, LineageRootId)) ==> Missing(LineageRootId) in Reasons(rc, m);
    } else {
      assert CORRUPT_JSON in Reasons(rc, m);
    }
  }

  lemma EnvelopeLineage(rc: RouterCodec, s: Source, kind: RoutingType, c: Coordinate)
    requires Inside(s.log, c) && RoutedTo(rc, s, kind, c)
    ensures var e := DecisionAt(rc, s, c).envelope;
      && (e.lineage.Str? && e.lineage.s != "" <==> CarriesLineage(rc, SlotAt(s.log, c).message))
      && EnvelopeFits(kind, e)
      && (e.sourceTopic, e.sourcePartition, e.sourceOffset) == (s.topic, c.partition, c.offset)
  {
  }

  // ----- verification -----

  predicate Usable(rc: RouterCodec, kind: RoutingType, m: Message)
  {
    rc.parse(m.value).Parsed? && EnvelopeFits(kind, rc.parse(m.value).envelope)
  }

  predicate KeyAgrees(rc: RouterCodec, m: Message)
  {
    rc.parse(m.value).Parsed? && PyEq(KeyOf(m), rc.parse(m.value).envelope.lineage)
  }

  function Triple(rc: RouterCodec, m: Message): (string, int, int)
  {
    match rc.parse(m.value)
    case Parsed(e) => (e.sourceTopic, e.sourcePartition, e.sourceOffset)
    case _ => ("", 0, 0)
  }

  function Triples(rc: RouterCodec, messages: seq<Message>): (triples: seq<(string, int, int)>)
    ensures |triples| == |messages| && forall i :: 0 <= i < |messages| ==> triples[i] == Triple(rc, messages[i])
  {
    seq(|messages|, i requires 0 <= i < |messages| => Triple(rc, messages[i]))
  }

  function MessagesIn(arrivals: seq<Arrival>): (messages: seq<Message>)
    ensures |messages| == |arrivals| && forall i :: 0 <= i < |messages| ==> messages[i] == arrivals[i].message
  {
    seq(|arrivals|, i requires 0 <= i < |arrivals| => arrivals[i].message)
  }

  ghost predicate AllUsable(rc: RouterCodec, kind: RoutingType, messages: seq<Message>)
  {
    forall i :: 0 <= i < |messages| ==> Usable(rc, kind, messages[i])
  }

  ghost predicate AllKeysAgree(rc: RouterCodec, messages: seq<Message>)
  {
    forall i :: 0 <= i < |messages| ==> KeyAgrees(rc, messages[i])
  }

  lemma VerifyStep(rc: RouterCodec, kind: RoutingType, v: Verification, m: Message)
    requires Usable(rc, kind, m)
    ensures var after := VerifyArrival(rc, kind, v, m);
      && after.consumed == v.consumed + 1 && after.invalidEnvelopes == v.invalidEnvelopes
      && after.keyMismatches == v.keyMismatches + One(!KeyAgrees(rc, m)) && after.coordinates == v.coordinates + {Triple(rc, m)}
  {
  }

  lemma {:induction false} MismatchesCount(rc: RouterCodec, kind: RoutingType, arrivals: seq<Arrival>)
    requires AllUsable(rc, kind, MessagesIn(arrivals))
    ensures var v := VerificationOf(rc, kind, arrivals);
      && v.consumed == |arrivals| && v.invalidEnvelopes == 0
      && (v.keyMismatches == 0 <==> AllKeysAgree(rc, MessagesIn(arrivals)))
  {
    if arrivals != [] {
      var n, messages := |arrivals| - 1, MessagesIn(arrivals);
      assert MessagesIn(arrivals[..n]) == messages[..n];
      MismatchesCount(rc, kind, arrivals[..n]);
      assert Usable(rc, kind, messages[n]);
      VerifyStep(rc, kind, VerificationOf(rc, kind, arrivals[..n]), messages[n]);
      KeysStep(rc, messages, n);
    }
  }

  lemma {:induction false} CoordinatesCollect(rc: RouterCodec, kind: RoutingType, arrivals: seq<Arrival>)
    requires AllUsable(rc, kind, MessagesIn(arrivals))
    ensures VerificationOf(rc, kind, arrivals).coordinates == SetOf(Triples(rc, MessagesIn(arrivals)))
  {
    var messages := MessagesIn(arrivals);
    if arrivals == [] {
      assert SetOf(Triples(rc, messages)) == {};
    } else {
      var n := |arrivals| - 1;
      assert MessagesIn(arrivals[..n]) == messages[..n];
      CoordinatesCollect(rc, kind, arrivals[..n]);
      assert Usable(rc, kind, messages[n]);
      VerifyStep(rc, kind, VerificationOf(rc, kind, arrivals[..n]), messages[n]);
      assert Triples(rc, messages) == Triples(rc, messages[..n]) + [Triple(rc, messages[n])];
    }
  }

  /** What the verification of routed messages comes to. */
  lemma VerificationIs(rc: RouterCodec, kind: RoutingType, arrivals: seq<Arrival>)
    requires AllUsable(rc, kind, MessagesIn(arrivals))
    ensures var v := VerificationOf(rc, kind, arrivals);
      && v.consumed == |arrivals| && v.invalidEnvelopes == 0
      && (v.keyMismatches == 0 <==> AllKeysAgree(rc, MessagesIn(arrivals)))
      && v.coordinates == SetOf(Triples(rc, MessagesIn(arrivals)))
  {
    MismatchesCount(rc, kind, arrivals);
    CoordinatesCollect(rc, kind, arrivals);
  }

  lemma KeysStep(rc: RouterCodec, messages: seq<Message>, n: nat)
    requires |messages| == n + 1
    ensures AllKeysAgree(rc, messages) <==> AllKeysAgree(rc, messages[..n]) && KeyAgrees(rc, messages[n])
  {
    assert forall i :: 0 <= i < n ==> messages[..n][i] == messages[i];
  }

  /** Verifying the messages in whatever order they were read: the verdict is about their keys alone. */
  lemma VerdictExact(rc: RouterCodec, kind: RoutingType, arrivals: seq<Arrival>, messages: seq<Message>)
    requires |arrivals| == |messages| && SetOf(MessagesIn(arrivals)) == SetOf(messages)
    requires AllUsable(rc, kind, messages) && Distinct(Triples(rc, messages))
    ensures IsVerified(VerificationOf(rc, kind, arrivals), |messages|) <==> AllKeysAgree(rc, messages)
  {
    var read := MessagesIn(arrivals);
    SameMessages(rc, kind, read, messages);
    SameMessages(rc, kind, messages, read);
    VerificationIs(rc, kind, arrivals);
    SameTriples(rc, read, messages);
    DistinctCardinality(Triples(rc, messages));
  }

  lemma SameMessages(rc: RouterCodec, kind: RoutingType, a: seq<Message>, b: seq<Message>)
    requires SetOf(a) == SetOf(b)
    ensures AllUsable(rc, kind, b) ==> AllUsable(rc, kind, a)
    ensures AllKeysAgree(rc, b) ==> AllKeysAgree(rc, a)
  {
    forall i | 0 <= i < |a| ensures exists j :: 0 <= j < |b| && b[j] == a[i] {
      assert a[i] in SetOf(b);
    }
  }

  lemma SameTriples(rc: RouterCodec, a: seq<Message>, b: seq<Message>)
    requires SetOf(a) == SetOf(b)
    ensures SetOf(Triples(rc, a)) == SetOf(Triples(rc, b))
  {
    TriplesWithin(rc, a, b);
    TriplesWithin(rc, b, a);
  }

  lemma TriplesWithin(rc: RouterCodec, a: seq<Message>, b: seq<Message>)
    requires SetOf(a) <= SetOf(b)
    ensures SetOf(Triples(rc, a)) <= SetOf(Triples(rc, b))
  {
    forall x | x in SetOf(Triples(rc, a)) ensures x in SetOf(Triples(rc, b)) {
      var i :| 0 <= i < |a| && Triples(rc, a)[i] == x;
      assert a[i] in SetOf(b);
      var j :| 0 <= j < |b| && b[j] == a[i];
      assert Triples(rc, b)[j] == x;
    }
  }

  // ----- one output topic -----

  /** All messages routed to a topic carry a lineage root. */
  ghost predicate AllCarryLineage(rc: RouterCodec, log: Log, from: seq<Coordinate>)
  {
    forall i :: 0 <= i < |from| ==> Inside(log, from[i]) && CarriesLineage(rc, SlotAt(log, from[i]).message)
  }

  lemma RoutedMessagesVerify(rc: RouterCodec, s: Source, kind: RoutingType, taken: seq<Coordinate>)
    requires AllInside(s.log, taken) && Distinct(taken) && EnvelopesReadBack(rc, s, taken)
    ensures var messages := RoutedMessages(rc, s, kind, taken);
      && AllUsable(rc, kind, messages) && Distinct(Triples(rc, messages))
      && (AllKeysAgree(rc, messages) <==> AllCarryLineage(rc, s.log, RoutedFrom(rc, s, kind, taken)))
  {
    var messages, from := RoutedMessages(rc, s, kind, taken), RoutedFrom(rc, s, kind, taken);
    RoutedMessagesAre(rc, s, kind, taken);
    RoutedFromIs(rc, s, kind, taken);
    forall i | 0 <= i < |messages|
      ensures Usable(rc, kind, messages[i])
      ensures KeyAgrees(rc, messages[i]) <==> CarriesLineage(rc, SlotAt(s.log, from[i]).message)
      ensures Triple(rc, messages[i]) == (s.topic, from[i].partition, from[i].offset)
    {
      assert from[i] in taken;
      RoutedMessageVerifies(rc, s, kind, from[i], messages[i]);
    }
    forall i, j | 0 <= i < j < |messages| ensures Triples(rc, messages)[i] != Triples(rc, messages)[j] {
      assert from[i] != from[j];
    }
    KeysAreLineages(rc, s.log, messages, from);
  }

  lemma KeysAreLineages(rc: RouterCodec, log: Log, messages: seq<Message>, from: seq<Coordinate>)
    requires |messages| == |from| && AllInside(log, from)
    requires forall i :: 0 <= i < |from| ==> (KeyAgrees(rc, messages[i]) <==> CarriesLineage(rc, SlotAt(log, from[i]).message))
    ensures AllKeysAgree(rc, messages) <==> AllCarryLineage(rc, log, from)
  {
  }

  lemma RoutedMessageVerifies(rc: RouterCodec, s: Source, kind: RoutingType, c: Coordinate, m: Message)
    requires MessageFrom(rc, s, kind, c, m) && EnvelopeReadsBack(rc, s, c)
    ensures Usable(rc, kind, m)
    ensures KeyAgrees(rc, m) <==> CarriesLineage(rc, SlotAt(s.log, c).message)
    ensures Triple(rc, m) == (s.topic, c.partition, c.offset)
  {
    var e := DecisionAt(rc, s, c).envelope;
    EnvelopeLineage(rc, s, kind, c);
    KeyAgreesExactly(rc, e);
  }

  /** What a topic's verification says when its window holds exactly the routed messages. */
  lemma TopicVerdict(rc: RouterCodec, s: Source, kind: RoutingType, taken: seq<Coordinate>, o: Output, verdict: bool)
    requires AllInside(s.log, taken) && Distinct(taken) && EnvelopesReadBack(rc, s, taken) && |o.log| == OUTPUT_PARTITIONS
    requires var t := OutputTrace(rc, s, kind, taken, o);
      ManifestOfTrace(t).reconciled && Verifies(rc, kind, t, o, verdict)
    ensures verdict <==> AllCarryLineage(rc, s.log, RoutedFrom(rc, s, kind, taken))
  {
    var t, messages := OutputTrace(rc, s, kind, taken, o), RoutedMessages(rc, s, kind, taken);
    var m := ManifestOfTrace(t);
    var v :| RangeVerified(rc, kind, VerifiedLog(t, o), m.starts, m.ends, m.delivered, o.polls, v) && verdict == IsVerified(v, m.delivered);
    LaterLogExtends(o, messages);
    RoutedMessagesVerify(rc, s, kind, taken);
    VerdictOfRead(rc, kind, o.log, messages, o.script, VerifiedLog(t, o), o.polls, v);
    TopicCounts(rc, s, kind, taken, o);
  }

  /** Verifying a window that a producer filled, at any later time. */
  lemma VerdictOfRead(rc: RouterCodec, kind: RoutingType, log: Log, messages: seq<Message>, script: Script, later: Log, polls: seq<Poll>,
                      v: Verification)
    requires AllUsable(rc, kind, messages) && Distinct(Triples(rc, messages))
    requires var t := TraceOf(log, |log|, messages, script);
      var m := ManifestOfTrace(t);
      && m.reconciled && Extends(later, t.end.broker.log)
      && RangeVerified(rc, kind, later, m.starts, m.ends, m.delivered, polls, v)
    ensures IsVerified(v, |messages|) <==> AllKeysAgree(rc, messages)
  {
    ProducedThenConsumed(log, messages, script, later, polls);
    var read := ReadOf(ManifestOfTrace(TraceOf(log, |log|, messages, script)), later, polls).taken;
    ReadMessagesAreSent(log, messages, script, later, read);
    VerdictExact(rc, kind, ArrivalsOf(later, read), messages);
  }

  lemma LaterLogExtends(o: Output, messages: seq<Message>)
    requires |o.log| == OUTPUT_PARTITIONS
    ensures var t := TraceOf(o.log, OUTPUT_PARTITIONS, messages, o.script); Extends(VerifiedLog(t, o), t.end.broker.log)
  {
    var t := TraceOf(o.log, OUTPUT_PARTITIONS, messages, o.script);
    var first := FirstOffsets(o.log, t.start.offsets);
    TracesFit(o.log, OUTPUT_PARTITIONS, messages, o.script);
    HappenAllFits(t.end.broker, first, o.verifying);
  }

  lemma ReadMessagesAreSent(log: Log, messages: seq<Message>, script: Script, later: Log, read: seq<Coordinate>)
    requires var t := TraceOf(log, |log|, messages, script);
      && ManifestOfTrace(t).reconciled && Extends(later, t.end.broker.log)
      && (forall i: nat :: i < |messages| ==> i in t.flushed.places && t.flushed.places[i] in read)
      && (forall k :: 0 <= k < |read| ==> TookRecord(later, messages, read[k]))
    ensures AllInside(later, read) && SetOf(MessagesIn(ArrivalsOf(later, read))) == SetOf(messages)
  {
    var t := TraceOf(log, |log|, messages, script);
    var got := MessagesIn(ArrivalsOf(later, read));
    CoveredTopic(log, messages, script);
    forall k | 0 <= k < |read| ensures got[k] in messages {
      assert TookRecord(later, messages, read[k]);
    }
    forall i: nat | i < |messages| ensures messages[i] in got {
      SentIsRead(t, messages, later, read, i);
    }
  }

  lemma SentIsRead(t: Trace, messages: seq<Message>, later: Log, read: seq<Coordinate>, i: nat)
    requires |t.start.offsets| == |t.end.offsets| && Extends(later, t.end.broker.log) && AllInside(later, read)
    requires HoldsRecords(t.end.broker.log, t.start.offsets, t.end.offsets, t.flushed.places, messages)
    requires i < |messages| && t.flushed.places[i] in read
    ensures messages[i] in MessagesIn(ArrivalsOf(later, read))
  {
    assert HoldsRecord(t.end.broker.log, t.start.offsets, t.end.offsets, t.flushed.places[i], i, messages[i]);
    ExtendedSlot(later, t.end.broker.log, t.flushed.places[i]);
    var k :| 0 <= k < |read| && read[k] == t.flushed.places[i];
    assert MessagesIn(ArrivalsOf(later, read))[k] == messages[i];
  }

  // ----- the counts -----

  lemma NothingOwed(b: Broker, first: seq<nat>)
    requires BrokerFits(b, first)
    ensures Undelivered(b) >= 0
    ensures b.failed == {} && Undelivered(b) == 0 ==> |b.sent| == Total(b.deliveredBy)
  {
    AcknowledgedInside(b, first);
    NumbersBelow(b.acknowledged + b.failed, |b.sent|);
    assert |b.acknowledged + b.failed| == |b.acknowledged| + |b.failed|;
  }

  /** Routing reconciles exactly when both topics reconcile on their own, as producer runs do, and both verify. */
  lemma RoutingIsBothTopics(rc: RouterCodec, s: Source, taken: seq<Coordinate>, ro: Output, dq: Output, rv: bool, dv: bool)
    requires AllInside(s.log, taken) && OUTPUT_PARTITIONS <= |ro.log| && OUTPUT_PARTITIONS <= |dq.log|
    ensures var r := ManifestOfTrace(OutputTrace(rc, s, REJECTED, taken, ro));
      var d := ManifestOfTrace(OutputTrace(rc, s, DLQ, taken, dq));
      RoutingReconciled(|taken|, PassedCount(rc, s, taken), r, d, rv, dv) <==> r.reconciled && d.reconciled && rv && dv
  {
    FatesAddUp(rc, s, taken);
    TopicCounts(rc, s, REJECTED, taken, ro);
    TopicCounts(rc, s, DLQ, taken, dq);
  }

  lemma TopicCounts(rc: RouterCodec, s: Source, kind: RoutingType, taken: seq<Coordinate>, o: Output)
    requires AllInside(s.log, taken) && OUTPUT_PARTITIONS <= |o.log|
    ensures var m := ManifestOfTrace(OutputTrace(rc, s, kind, taken, o));
      && m.undelivered >= 0 && m.attempted == |RoutedMessages(rc, s, kind, taken)|
      && (m.failures == 0 && m.undelivered == 0 ==> m.attempted == m.delivered)
      && (m.reconciled <==> m.attempted == m.delivered && m.failures == 0 && m.undelivered == 0 && m.offsetDelta == m.delivered)
  {
    var messages := RoutedMessages(rc, s, kind, taken);
    var t := OutputTrace(rc, s, kind, taken, o);
    TracesFit(o.log, OUTPUT_PARTITIONS, messages, o.script);
    TraceSent(o.log, OUTPUT_PARTITIONS, messages, o.script);
    NothingOwed(t.flushed, FirstOffsets(o.log, t.start.offsets));
  }

  // ----- main results -----

  /** A topic is settled: all that was routed to it was acknowledged, and its window holds exactly that, each message once. */
  ghost predicate Settled(rc: RouterCodec, s: Source, kind: RoutingType, taken: seq<Coordinate>, o: Output)
    requires AllInside(s.log, taken) && OUTPUT_PARTITIONS <= |o.log|
  {
    var t := OutputTrace(rc, s, kind, taken, o);
    && AllAcknowledged(t.flushed)
    && HoldsRecords(t.end.broker.log, t.start.offsets, t.end.offsets, t.flushed.places, RoutedMessages(rc, s, kind, taken))
  }

  /** The messages of the source window that carry a lineage root. */
  ghost predicate WindowCarriesLineage(rc: RouterCodec, s: Source, taken: seq<Coordinate>)
    requires AllInside(s.log, taken)
  {
    forall i :: 0 <= i < |taken| ==> CarriesLineage(rc, SlotAt(s.log, taken[i]).message)
  }

  lemma LineagesExact(rc: RouterCodec, s: Source, taken: seq<Coordinate>)
    requires AllInside(s.log, taken)
    ensures AllCarryLineage(rc, s.log, RoutedFrom(rc, s, REJECTED, taken)) <==> WindowCarriesLineage(rc, s, taken)
    ensures WindowCarriesLineage(rc, s, taken) ==> AllCarryLineage(rc, s.log, RoutedFrom(rc, s, DLQ, taken))
  {
    RoutedFromIs(rc, s, REJECTED, taken);
    RoutedFromIs(rc, s, DLQ, taken);
    var rejected, dlq := RoutedFrom(rc, s, REJECTED, taken), RoutedFrom(rc, s, DLQ, taken);
    if WindowCarriesLineage(rc, s, taken) {
      forall i | 0 <= i < |rejected| ensures Inside(s.log, rejected[i]) && CarriesLineage(rc, SlotAt(s.log, rejected[i]).message) {
        assert rejected[i] in taken;
      }
      forall i | 0 <= i < |dlq| ensures Inside(s.log, dlq[i]) && CarriesLineage(rc, SlotAt(s.log, dlq[i]).message) {
        assert dlq[i] in taken;
      }
    }
    if AllCarryLineage(rc, s.log, rejected) {
      forall i | 0 <= i < |taken| ensures CarriesLineage(rc, SlotAt(s.log, taken[i]).message) {
        LineageOrRejected(rc, s, taken, rejected, taken[i]);
      }
    }
  }

  lemma LineageOrRejected(rc: RouterCodec, s: Source, taken: seq<Coordinate>, rejected: seq<Coordinate>, c: Coordinate)
    requires AllInside(s.log, taken) && c in taken && AllCarryLineage(rc, s.log, rejected)
    requires forall d :: d in rejected <==> d in taken && RoutedTo(rc, s, REJECTED, d)
    ensures CarriesLineage(rc, SlotAt(s.log, c).message)
  {
    NoLineageIsRejected(rc, s, c);
    assert forall i :: 0 <= i < |rejected| ==> CarriesLineage(rc, SlotAt(s.log, rejected[i]).message);
  }

  /**
   * Routing reconciles if and only if both output windows hold exactly the messages routed to them, each acknowledged and
   * each once, and every message of the source window carries a lineage root. A null, empty or unreadable one is keyed by
   * str(None), or by no key at all, and the verification counts that as a mismatch, however well everything was delivered.
   */
  lemma RoutingExact(rc: RouterCodec, source: ProducerManifest, s: Source, polls: seq<Poll>, ro: Output, dq: Output, m: RoutingManifest)
    requires |ro.log| == |dq.log| == OUTPUT_PARTITIONS
    requires IsWindow(source.starts, source.ends) && source.delivered == OffsetDelta(source.starts, source.ends)
    requires RoutingFits(rc, source, s, polls, ro, dq, m)
    requires EnvelopesReadBack(rc, s, ReadOf(source, s.log, polls).taken)
    ensures var taken := ReadOf(source, s.log, polls).taken;
      && ListsWindow(taken, source.starts, source.ends)
      && (m.reconciled <==>
            Settled(rc, s, REJECTED, taken, ro) && Settled(rc, s, DLQ, taken, dq) && WindowCarriesLineage(rc, s, taken))
  {
    var taken := ReadOf(source, s.log, polls).taken;
    ReadIsWindow(s.log, source.starts, source.ends, polls);
    RoutingIsBothTopics(rc, s, taken, ro, dq, m.rejectedVerified, m.dlqVerified);
    LineagesExact(rc, s, taken);
    CoveredTopic(ro.log, RoutedMessages(rc, s, REJECTED, taken), ro.script);
    CoveredTopic(dq.log, RoutedMessages(rc, s, DLQ, taken), dq.script);
    if Settled(rc, s, REJECTED, taken, ro) && Settled(rc, s, DLQ, taken, dq) {
      TopicVerdict(rc, s, REJECTED, taken, ro, m.rejectedVerified);
      TopicVerdict(rc, s, DLQ, taken, dq, m.dlqVerified);
    }
  }

  /** Where a source coordinate went: its envelope is at one place of one output window, and nowhere else. */
  lemma RoutedOnce(rc: RouterCodec, s: Source, kind: RoutingType, taken: seq<Coordinate>, o: Output, c: Coordinate) returns (place: Coordinate)
    requires AllInside(s.log, taken) && |o.log| == OUTPUT_PARTITIONS && Settled(rc, s, kind, taken, o) && Distinct(taken)
    requires c in taken && RoutedTo(rc, s, kind, c)
    ensures var t := OutputTrace(rc, s, kind, taken, o);
      && InWindow(t.start.offsets, t.end.offsets, place) && HoldsRouted(rc, s, kind, taken, t.end.broker.log, place, c)
      && forall other :: InWindow(t.start.offsets, t.end.offsets, other) && HoldsRouted(rc, s, kind, taken, t.end.broker.log, other, c) ==> other == place
  {
    var t, from := OutputTrace(rc, s, kind, taken, o), RoutedFrom(rc, s, kind, taken);
    RoutedFromIs(rc, s, kind, taken);
    RoutedMessagesAre(rc, s, kind, taken);
    var i: nat :| i < |from| && from[i] == c;
    var messages := RoutedMessages(rc, s, kind, taken);
    place := t.flushed.places[i];
    assert HoldsRecord(t.end.broker.log, t.start.offsets, t.end.offsets, place, i, messages[i]);
    forall other | InWindow(t.start.offsets, t.end.offsets, other) && HoldsRouted(rc, s, kind, taken, t.end.broker.log, other, c)
      ensures other == place
    {
      HolderIs(rc, s, kind, taken, o, c, i, other);
    }
  }

  /** Whatever place of the window holds the message routed from a coordinate is the place of that record. */
  lemma HolderIs(rc: RouterCodec, s: Source, kind: RoutingType, taken: seq<Coordinate>, o: Output, c: Coordinate, i: nat, other: Coordinate)
    requires AllInside(s.log, taken) && |o.log| == OUTPUT_PARTITIONS && Settled(rc, s, kind, taken, o) && Distinct(taken)
    requires i < |RoutedFrom(rc, s, kind, taken)| && RoutedFrom(rc, s, kind, taken)[i] == c
    requires var t := OutputTrace(rc, s, kind, taken, o);
      InWindow(t.start.offsets, t.end.offsets, other) && HoldsRouted(rc, s, kind, taken, t.end.broker.log, other, c)
    ensures var t := OutputTrace(rc, s, kind, taken, o); i in t.flushed.places && t.flushed.places[i] == other
  {
    RoutedFromIs(rc, s, kind, taken);
    RoutedMessagesAre(rc, s, kind, taken);
    var t := OutputTrace(rc, s, kind, taken, o);
    assert HeldSlot(t.end.broker.log, t.flushed.places, |RoutedMessages(rc, s, kind, taken)|, other);
  }

  /** This place of an output log holds the message routed from a coordinate. */
  predicate HoldsRouted(rc: RouterCodec, s: Source, kind: RoutingType, taken: seq<Coordinate>, log: Log, place: Coordinate, c: Coordinate)
    requires AllInside(s.log, taken)
  {
    && Inside(log, place) && SlotAt(log, place).own.Some?
    && var i, from := SlotAt(log, place).own.value, RoutedFrom(rc, s, kind, taken);
       i < |from| && from[i] == c && MessageFrom(rc, s, kind, c, SlotAt(log, place).message)
  }

  /** Windows that the producer published always carry lineage roots, so for them only delivery decides. */
  lemma PublishedWindowsCarryLineage(rc: RouterCodec, line: Bytes)
    requires Publishable(rc.events, line)
    ensures CarriesLineage(rc, MessageOf(rc.events, line))
    ensures KeyOf(MessageOf(rc.events, line)) == Get(EventOf(rc, MessageOf(rc.events, line)).value, LineageRootId)
  {
  }
}
