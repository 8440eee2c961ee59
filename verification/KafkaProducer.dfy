/** The bounded producer, and what its reconciled manifest says about the log. */
module KafkaProducer {
  import opened Common
  import opened ReplayRecords
  import opened KafkaLog

  // ----- the records to publish -----

  datatype Parsed = NotJson | NotUtf8 | NotObject | Object(event: Event)

  /** What is computed elsewhere: SHA-256 of the artifact, and JSON decoding. */
  datatype Codec = Codec(sha: seq<Bytes> -> string, parse: Bytes -> Parsed)

  datatype PublishError =
    | LimitNotPositive | ChecksumMismatch | UnknownPartition | InvalidLine(record: nat) | NoLineage(record: nat)
    | NotReconciled(manifest: ProducerManifest)

  /** raw_line.rstrip(b"\r\n") */
  function RStrip(line: Bytes): Bytes
  {
    if line != [] && (line[|line| - 1] == 10 || line[|line| - 1] == 13) then RStrip(line[..|line| - 1]) else line
  }

  predicate HasLineage(event: Event)
  {
    Get(event, LineageRootId).Str? && Get(event, LineageRootId).s != ""
  }

  predicate Publishable(c: Codec, line: Bytes)
  {
    c.parse(RStrip(line)).Object? && HasLineage(c.parse(RStrip(line)).event)
  }

  /** The message a line is published as. */
  function MessageOf(c: Codec, line: Bytes): Message
    requires Publishable(c, line)
  {
    Message(Get(c.parse(RStrip(line)).event, LineageRootId).s, RStrip(line))
  }

  function Messages(c: Codec, lines: seq<Bytes>): (messages: seq<Message>)
    requires forall i :: 0 <= i < |lines| ==> Publishable(c, lines[i])
    ensures |messages| == |lines| && forall i :: 0 <= i < |lines| ==> messages[i] == MessageOf(c, lines[i])
  {
    seq(|lines|, i requires 0 <= i < |lines| => MessageOf(c, lines[i]))
  }

  /** The lines within the limit. */
  function Limited(source: seq<Bytes>, limit: int): seq<Bytes>
  {
    if limit <= 0 then [] else if |source| <= limit then source else source[..limit]
  }

  // ----- the run -----

  /** What happens around the producer while it reads offsets, sends, flushes, and reads offsets again. */
  datatype Script = Script(starting: seq<seq<BrokerEvent>>, sending: seq<seq<BrokerEvent>>, flushing: seq<BrokerEvent>,
                           ending: seq<seq<BrokerEvent>>)

  function Batch(batches: seq<seq<BrokerEvent>>, i: nat): seq<BrokerEvent>
  {
    if i < |batches| then batches[i] else []
  }

  datatype Watermarks = Watermarks(offsets: seq<nat>, broker: Broker)

  /** partition_watermarks: the high offset of each partition, read one after another while the log moves on. */
  function ReadWatermarks(b: Broker, count: nat, batches: seq<seq<BrokerEvent>>): (w: Watermarks)
    requires count <= |b.log|
    ensures |w.offsets| == count && |w.broker.log| == |b.log|
  {
    if count == 0 then Watermarks([], b) else
      var w := ReadWatermarks(b, count - 1, batches);
      var now := HappenAll(w.broker, Batch(batches, count - 1));
      Watermarks(w.offsets + [|now.log[count - 1]|], now)
  }

  /** The records are produced one after another, with events after each. */
  function Send(b: Broker, messages: seq<Message>, batches: seq<seq<BrokerEvent>>): (after: Broker)
    ensures |after.log| == |b.log|
  {
    if messages == [] then b else
      var n := |messages| - 1;
      HappenAll(Produce(Send(b, messages[..n], batches), messages[n]), Batch(batches, n))
  }

  datatype ProducerManifest = ProducerManifest(
    attempted: nat, delivered: nat, failures: nat, undelivered: int, valueBytes: nat, deliveredBy: seq<nat>,
    starts: seq<nat>, ends: seq<nat>, offsetDelta: int, reconciled: bool)

  function Undelivered(b: Broker): int
  {
    |b.sent| - |b.acknowledged| - |b.failed|
  }

  function ValueBytes(messages: seq<Message>): nat
  {
    if messages == [] then 0 else ValueBytes(messages[..|messages| - 1]) + |messages[|messages| - 1].value|
  }

  /** The sum of the offset differences, negative ones included. */
  function DeltaSum(starts: seq<nat>, ends: seq<nat>): int
    requires |starts| == |ends|
  {
    if starts == [] then 0 else
      var n := |starts| - 1;
      DeltaSum(starts[..n], ends[..n]) + (ends[n] as int - starts[n] as int)
  }

  function ManifestOf(flushed: Broker, starts: seq<nat>, ends: seq<nat>): ProducerManifest
    requires |starts| == |ends|
  {
    var delivered, delta := Total(flushed.deliveredBy), DeltaSum(starts, ends);
    ProducerManifest(|flushed.sent|, delivered, |flushed.failed|, Undelivered(flushed), ValueBytes(flushed.sent), flushed.deliveredBy,
                     starts, ends, delta,
                     |flushed.sent| == delivered && flushed.failed == {} && Undelivered(flushed) == 0 && delta == delivered)
  }

  /** The stages of a run over a log: offsets read, records sent and flushed, offsets read again. */
  datatype Trace = Trace(start: Watermarks, flushed: Broker, end: Watermarks)

  function TraceOf(log: Log, count: nat, messages: seq<Message>, script: Script): (t: Trace)
    requires count <= |log|
    ensures |t.start.offsets| == |t.end.offsets| == count
  {
    var start := ReadWatermarks(FreshBroker(log), count, script.starting);
    var flushed := HappenAll(Send(start.broker, messages, script.sending), script.flushing);
    Trace(start, flushed, ReadWatermarks(flushed, count, script.ending))
  }

  function ManifestOfTrace(t: Trace): ProducerManifest
    requires |t.start.offsets| == |t.end.offsets|
  {
    ManifestOf(t.flushed, t.start.offsets, t.end.offsets)
  }

  // ----- the producer itself -----

  method PartitionWatermarks(b: Broker, count: nat, batches: seq<seq<BrokerEvent>>) returns (r: Option<Watermarks>)
    ensures r == if count <= |b.log| then Some(ReadWatermarks(b, count, batches)) else None
  {
    var offsets: seq<nat>, now := [], b;
    for p := 0 to count
      invariant p <= |b.log| == |now.log|
      invariant Watermarks(offsets, now) == ReadWatermarks(b, p, batches)
    {
      if p >= |now.log| {
        return None;
      }
      now := HappenAll(now, Batch(batches, p));
      offsets := offsets + [|now.log[p]|];
    }
    return Some(Watermarks(offsets, now));
  }

  /** The send loop: the first line that cannot be published stops it. */
  method SendAll(c: Codec, source: seq<Bytes>, limit: int, start: Broker, batches: seq<seq<BrokerEvent>>)
    returns (r: Result<Broker, PublishError>, attempted: nat, valueBytes: nat)
    ensures r.Ok? <==> forall i :: 0 <= i < |Limited(source, limit)| ==> Publishable(c, Limited(source, limit)[i])
    ensures r.Ok? ==> r.value == Send(start, Messages(c, Limited(source, limit)), batches)
    ensures r.Err? ==> !r.error.NotReconciled?
    ensures r.Ok? ==> attempted == |Limited(source, limit)| && valueBytes == ValueBytes(Messages(c, Limited(source, limit)))
  {
    ghost var lines := Limited(source, limit);
    ghost var messages: seq<Message> := [];
    var b := start;
    attempted, valueBytes := 0, 0;
    for i := 0 to |source|
      invariant attempted == i && i <= |lines|
      invariant forall k :: 0 <= k < i ==> Publishable(c, lines[k])
      invariant messages == Messages(c, lines[..i])
      invariant b == Send(start, messages, batches) && valueBytes == ValueBytes(messages)
    {
      if attempted >= limit {
        break;
      }
      var value := RStrip(source[i]);
      assert source[i] == lines[i];
      var event := c.parse(value);
      if !event.Object? {
        return Err(InvalidLine(attempted)), attempted, valueBytes;
      }
      var lineage := Get(event.event, LineageRootId);
      if !lineage.Str? || lineage.s == "" {
        return Err(NoLineage(attempted)), attempted, valueBytes;
      }
      var message := Message(lineage.s, value);
      MessagesGrow(c, lines, i, messages, message);
      SendMore(start, messages, message, batches);
      messages := messages + [message];
      b := HappenAll(Produce(b, message), Batch(batches, attempted));
      attempted := attempted + 1;
      valueBytes := valueBytes + |value|;
    }
    assert lines[..attempted] == lines;
    return Ok(b), attempted, valueBytes;
  }

  lemma MessagesGrow(c: Codec, lines: seq<Bytes>, i: nat, messages: seq<Message>, message: Message)
    requires i < |lines| && forall k :: 0 <= k <= i ==> Publishable(c, lines[k])
    requires messages == Messages(c, lines[..i]) && message == MessageOf(c, lines[i])
    ensures messages + [message] == Messages(c, lines[..i + 1])
  {
  }

  lemma SendMore(start: Broker, messages: seq<Message>, message: Message, batches: seq<seq<BrokerEvent>>)
    ensures Send(start, messages + [message], batches) == HappenAll(Produce(Send(start, messages, batches), message), Batch(batches, |messages|))
    ensures ValueBytes(messages + [message]) == ValueBytes(messages) + |message.value|
  {
    assert (messages + [message])[..|messages|] == messages;
  }

  /** The whole run: a manifest when it reconciles, and otherwise the reason it raised. */
  method PublishJsonl(c: Codec, source: seq<Bytes>, expectedSha: string, count: nat, limit: int, log: Log, script: Script)
    returns (r: Result<ProducerManifest, PublishError>)
    ensures r.Ok? <==>
      && limit > 0 && c.sha(source) == expectedSha && count <= |log|
      && (forall i :: 0 <= i < |Limited(source, limit)| ==> Publishable(c, Limited(source, limit)[i]))
      && ManifestOfTrace(TraceOf(log, count, Messages(c, Limited(source, limit)), script)).reconciled
    ensures r.Ok? ==> r.value == ManifestOfTrace(TraceOf(log, count, Messages(c, Limited(source, limit)), script))
    ensures r.Err? && r.error.NotReconciled? ==> !r.error.manifest.reconciled
  {
    if limit <= 0 {
      return Err(LimitNotPositive);
    }
    if c.sha(source) != expectedSha {
      return Err(ChecksumMismatch);
    }
    var start := PartitionWatermarks(FreshBroker(log), count, script.starting);
    if start.None? {
      return Err(UnknownPartition);
    }
    var sent, attempted, valueBytes := SendAll(c, source, limit, start.value.broker, script.sending);
    if sent.Err? {
      return Err(sent.error);
    }
    r := Reconcile(log, count, Messages(c, Limited(source, limit)), script, start.value, sent.value, attempted, valueBytes);
  }

  /** Flush, read the offsets again, and compare the counts. */
  method Reconcile(ghost log: Log, count: nat, ghost messages: seq<Message>, script: Script, start: Watermarks, sent: Broker,
                   attempted: nat, valueBytes: nat)
    returns (r: Result<ProducerManifest, PublishError>)
    requires count <= |log| && start == ReadWatermarks(FreshBroker(log), count, script.starting)
    requires sent == Send(start.broker, messages, script.sending) && attempted == |messages| && valueBytes == ValueBytes(messages)
    ensures r == (var m := ManifestOfTrace(TraceOf(log, count, messages, script)); if m.reconciled then Ok(m) else Err(NotReconciled(m)))
  {
    TraceSent(log, count, messages, script);
    var flushed := HappenAll(sent, script.flushing);
    var delivered := Total(flushed.deliveredBy);
    var end := PartitionWatermarks(flushed, count, script.ending);
    var starts, ends := start.offsets, end.value.offsets;
    var delta := SumOfDeltas(starts, ends);
    var undelivered := Undelivered(flushed);
    var reconciled := attempted == delivered && flushed.failed == {} && undelivered == 0 && delta == delivered;
    var manifest := ProducerManifest(attempted, delivered, |flushed.failed|, undelivered, valueBytes, flushed.deliveredBy,
                                     starts, ends, delta, reconciled);
    return if reconciled then Ok(manifest) else Err(NotReconciled(manifest));
  }

  method SumOfDeltas(starts: seq<nat>, ends: seq<nat>) returns (sum: int)
    requires |starts| == |ends|
    ensures sum == DeltaSum(starts, ends)
  {
    sum := 0;
    for p := 0 to |starts|
      invariant sum == DeltaSum(starts[..p], ends[..p])
    {
      sum := sum + (ends[p] as int - starts[p] as int);
      assert starts[..p + 1][..p] == starts[..p] && ends[..p + 1][..p] == ends[..p];
    }
    assert starts[..|starts|] == starts && ends[..|ends|] == ends;
  }

  /** Events never change what was handed to the producer. */
  lemma {:induction false} EventsKeepSent(b: Broker, events: seq<BrokerEvent>)
    ensures HappenAll(b, events).sent == b.sent
  {
    if events != [] { EventsKeepSent(b, events[..|events| - 1]); }
  }

  lemma {:induction false} SendSends(b: Broker, messages: seq<Message>, batches: seq<seq<BrokerEvent>>)
    ensures Send(b, messages, batches).sent == b.sent + messages
  {
    if messages != [] {
      var n := |messages| - 1;
      SendSends(b, messages[..n], batches);
      EventsKeepSent(Produce(Send(b, messages[..n], batches), messages[n]), Batch(batches, n));
      assert messages == messages[..n] + [messages[n]];
    }
  }

  lemma {:induction false} ReadingKeepsSent(b: Broker, count: nat, batches: seq<seq<BrokerEvent>>)
    requires count <= |b.log|
    ensures ReadWatermarks(b, count, batches).broker.sent == b.sent
  {
    if count > 0 {
      ReadingKeepsSent(b, count - 1, batches);
      EventsKeepSent(ReadWatermarks(b, count - 1, batches).broker, Batch(batches, count - 1));
    }
  }

  lemma TraceSent(log: Log, count: nat, messages: seq<Message>, script: Script)
    requires count <= |log|
    ensures TraceOf(log, count, messages, script).flushed.sent == messages
  {
    var start := ReadWatermarks(FreshBroker(log), count, script.starting);
    ReadingKeepsSent(FreshBroker(log), count, script.starting);
    SendSends(start.broker, messages, script.sending);
    EventsKeepSent(Send(start.broker, messages, script.sending), script.flushing);
  }
}
