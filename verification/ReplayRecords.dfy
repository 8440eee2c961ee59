/** Replay plans, JSON records as Python compares them, and the record each replay sequence number stands for. */
module ReplayRecords {
  import opened Common
  import opened TextOrder

  // ----- JSON values -----

  datatype Json =
    | Null
    | Bool(b: bool)
    | Int(i: int)
    | Float(r: real)
    | NotANumber
    | Infinite(negative: bool)
    | Str(s: string)
    | Arr(items: seq<Json>)
    | Obj(fields: seq<(string, Json)>)  // members in key order

  function Numeric(j: Json): Option<real>
  {
    match j
    case Bool(b) => Some(if b then 1.0 else 0.0)
    case Int(i) => Some(i as real)
    case Float(r) => Some(r)
    case _ => None
  }

  /**
   * Equality of what lists and objects hold: numbers and booleans compare by value, and a NaN equals a NaN, because decoding
   * yields one NaN object and Python compares the elements of containers by identity before it asks for equality.
   */
  predicate SameElement(a: Json, b: Json)
  {
    if Numeric(a).Some? || Numeric(b).Some? then Numeric(a) == Numeric(b)
    else match (a, b)
      case (Arr(x), Arr(y)) => |x| == |y| && forall i :: 0 <= i < |x| ==> SameElement(x[i], y[i])
      case (Obj(x), Obj(y)) => |x| == |y| && forall i :: 0 <= i < |x| ==> x[i].0 == y[i].0 && SameElement(x[i].1, y[i].1)
      case _ => a == b
  }

  /** Python's == on decoded JSON: a bare NaN equals nothing, not even itself. */
  predicate PyEq(a: Json, b: Json)
  {
    !a.NotANumber? && !b.NotANumber? && SameElement(a, b)
  }

  lemma {:induction false} SameElementReflexive(j: Json)
    ensures SameElement(j, j)
  {
    match j
    case Arr(items) =>
      forall i | 0 <= i < |items| ensures SameElement(items[i], items[i]) { SameElementReflexive(items[i]); }
    case Obj(fields) =>
      forall i | 0 <= i < |fields| ensures SameElement(fields[i].1, fields[i].1) { SameElementReflexive(fields[i].1); }
    case _ =>
  }

  /** A value equals a copy of itself exactly when it is not itself NaN; a NaN inside it does no harm. */
  lemma PyEqReflexive(j: Json)
    ensures PyEq(j, j) <==> j != NotANumber
  {
    SameElementReflexive(j);
  }

  /** On text, null, and structure, Python's equality is identity. */
  lemma PyEqOnText(j: Json, s: string)
    ensures PyEq(j, Str(s)) <==> j == Str(s)
    ensures PyEq(j, Null) <==> j == Null
  {
  }

  // ----- records -----

  /** The fields every replay record overwrites. */
  datatype OverwrittenField =
    | EventId | ParentEventId | SourceType | IsSynthetic | ReplayRunId | ReplayIteration | ReplaySequenceNumber
    | ScheduledReplayTimestamp | PipelineVersion | KafkaTopic | KafkaPartition | KafkaOffset | KafkaTimestamp
    | ValidationStatus | ValidationErrorCodes | DeduplicationStatus | EnrichmentStatus

  /** Field names of a canonical event. */
  datatype Field = Overwritten(field: OverwrittenField) | DetectionId | LineageRootId | SourceRecordId | Other(name: string)

  type Event = map<Field, Json>

  /** event.get(name) */
  function Get(e: Event, f: Field): Json
  {
    if f in e then e[f] else Null
  }

  const OVERWRITTEN: set<Field> := set o: OverwrittenField | true :: Overwritten(o)

  // ----- plans -----

  /** Times are microseconds since the epoch; the schedule interval is in milliseconds. */
  datatype Plan = Plan(sourceSha: string, sourceRecordCount: int, replayFactor: int, scheduledStart: int,
                       intervalMilliseconds: int, identityAlgorithm: string, orderingAlgorithm: string)

  predicate IsHexDigit(c: char)
  {
    '0' <= c <= '9' || 'a' <= c <= 'f' || 'A' <= c <= 'F'
  }

  predicate ValidPlan(p: Plan)
  {
    && |p.sourceSha| == 64 && (forall i :: 0 <= i < |p.sourceSha| ==> IsHexDigit(p.sourceSha[i]))
    && p.sourceRecordCount > 0 && p.replayFactor > 0 && p.intervalMilliseconds > 0
  }

  type Line = seq<bv8>

  /** What the pipeline computes elsewhere: SHA-256, JSON text, and the text of a millisecond timestamp. */
  datatype Platform = Platform(
    sha: Line -> string,
    parse: Line -> Option<Event>,
    render: Event -> Line,
    stamp: int -> string,
    runId: Plan -> string,
    eventId: (string, string, int) -> string)

  /** format_utc_milliseconds truncates to the millisecond. */
  function Milliseconds(microseconds: int): int
  {
    microseconds / 1000
  }

  /** The schedule in whole milliseconds: one interval after another from the truncated start. */
  function ScheduledMillisecond(plan: Plan, sequence: nat): int
  {
    if sequence == 0 then Milliseconds(plan.scheduledStart) else ScheduledMillisecond(plan, sequence - 1) + plan.intervalMilliseconds
  }

  /** It is the truncation of `start + sequence * interval`, whatever the start's sub-millisecond part. */
  lemma {:induction false} ScheduleIsTruncation(plan: Plan, sequence: nat)
    ensures ScheduledMillisecond(plan, sequence) == Milliseconds(plan.scheduledStart + sequence * plan.intervalMilliseconds * 1000)
  {
    if sequence > 0 {
      ScheduleIsTruncation(plan, sequence - 1);
      var d := plan.intervalMilliseconds;
      assert sequence * d == (sequence - 1) * d + d;
      var earlier := plan.scheduledStart + (sequence - 1) * d * 1000;
      assert Milliseconds(earlier + d * 1000) == Milliseconds(earlier) + d;
    }
  }

  /** Schedule times strictly increase with the sequence number, truncation included. */
  lemma {:induction false} ScheduleIncreases(plan: Plan, s: nat, t: nat)
    requires ValidPlan(plan) && s < t
    ensures ScheduledMillisecond(plan, s) < ScheduledMillisecond(plan, t)
  {
    if s < t - 1 { ScheduleIncreases(plan, s, t - 1); }
  }

  // ----- one replay record -----

  datatype Replay = Replay(runId: string, iteration: int, sequence: int, stamp: string, pipelineVersion: string)

  /** The value a replay record has in an overwritten field; parent is the original's event id. */
  function Overwrite(p: Platform, f: OverwrittenField, r: Replay, parent: string): Json
  {
    match f
    case EventId => Str(p.eventId(r.runId, parent, r.iteration))
    case ParentEventId => Str(parent)
    case SourceType => Str("NASA_REPLAY")
    case IsSynthetic => Bool(false)
    case ReplayRunId => Str(r.runId)
    case ReplayIteration => Int(r.iteration)
    case ReplaySequenceNumber => Int(r.sequence)
    case ScheduledReplayTimestamp => Str(r.stamp)
    case PipelineVersion => Str(r.pipelineVersion)
    case ValidationStatus => Str("PENDING")
    case ValidationErrorCodes => Arr([])
    case DeduplicationStatus => Str("PENDING")
    case EnrichmentStatus => Str("NOT_STARTED")
    case _ => Null
  }

  function IdOf(e: Event): string
  {
    match Get(e, Overwritten(EventId))
    case Str(s) => s
    case _ => ""
  }

  /** build_replay_event: a copy of the original with the overwritten fields replaced. */
  function BuildReplayEvent(p: Platform, original: Event, r: Replay): Event
  {
    map f | f in original.Keys + OVERWRITTEN :: if f.Overwritten? then Overwrite(p, f.field, r, IdOf(original)) else original[f]
  }

  /** The iteration a sequence number belongs to, counting down whole iterations of n records. */
  function IterationOf(n: int, sequence: int): (iteration: int)
    requires n > 0 && sequence >= 0
    ensures iteration >= 1
    decreases sequence, n
  {
    if sequence < n then 1 else IterationOf(n, sequence - n) + 1
  }

  /** The place of a sequence number within its iteration. */
  function IndexOf(n: int, sequence: int): (index: int)
    requires n > 0 && sequence >= 0
    ensures 0 <= index < n
    decreases sequence, n
  {
    if sequence < n then sequence else IndexOf(n, sequence - n)
  }

  /** The replay coordinates of a sequence number. */
  function ReplayAt(p: Platform, plan: Plan, pipelineVersion: string, sequence: nat): Replay
    requires plan.sourceRecordCount > 0
  {
    Replay(p.runId(plan), IterationOf(plan.sourceRecordCount, sequence), sequence,
           p.stamp(ScheduledMillisecond(plan, sequence)), pipelineVersion)
  }

  /** The record the plan stands for at a sequence number. */
  function RecordAt(p: Platform, plan: Plan, originals: seq<Event>, pipelineVersion: string, sequence: nat): Event
    requires plan.sourceRecordCount > 0 && |originals| == plan.sourceRecordCount
  {
    BuildReplayEvent(p, originals[IndexOf(plan.sourceRecordCount, sequence)], ReplayAt(p, plan, pipelineVersion, sequence))
  }

  /** A record together with its schedule stamp, as the generator writes it. */
  datatype Item = Item(record: Event, stamp: string)

  function ItemAt(p: Platform, plan: Plan, originals: seq<Event>, pipelineVersion: string, sequence: nat): Item
    requires plan.sourceRecordCount > 0 && |originals| == plan.sourceRecordCount
  {
    Item(RecordAt(p, plan, originals, pipelineVersion, sequence), p.stamp(ScheduledMillisecond(plan, sequence)))
  }

  /** The first count items of the plan. */
  function Items(p: Platform, plan: Plan, originals: seq<Event>, pipelineVersion: string, count: nat): seq<Item>
    requires plan.sourceRecordCount > 0 && |originals| == plan.sourceRecordCount
  {
    seq(count, s requires 0 <= s < count => ItemAt(p, plan, originals, pipelineVersion, s))
  }

  /** These are the first items of the plan. */
  ghost predicate ArePlanItems(p: Platform, plan: Plan, originals: seq<Event>, pipelineVersion: string, items: seq<Item>)
    requires plan.sourceRecordCount > 0 && |originals| == plan.sourceRecordCount
  {
    forall s: nat {:trigger ItemAt(p, plan, originals, pipelineVersion, s)} :: s < |items| ==>
      items[s] == ItemAt(p, plan, originals, pipelineVersion, s)
  }

  lemma ItemsArePlanItems(p: Platform, plan: Plan, originals: seq<Event>, pipelineVersion: string, count: nat)
    requires plan.sourceRecordCount > 0 && |originals| == plan.sourceRecordCount
    ensures |Items(p, plan, originals, pipelineVersion, count)| == count
    ensures ArePlanItems(p, plan, originals, pipelineVersion, Items(p, plan, originals, pipelineVersion, count))
  {
  }

  /** The records of a list of items. */
  function RecordsOf(items: seq<Item>): seq<Event>
  {
    seq(|items|, i requires 0 <= i < |items| => items[i].record)
  }

  lemma MultipleAtLeast(a: int, n: int)
    requires a >= 1 && n > 0
    ensures a * n >= n
  {
    assert a * n == (a - 1) * n + n;
  }

  lemma DivisionUnique(n: int, q: int, r: int)
    requires n > 0 && 0 <= r < n
    ensures (q * n + r) / n == q && (q * n + r) % n == r
  {
    var x := q * n + r;
    var q', r' := x / n, x % n;
    assert x == q' * n + r';
    assert (q - q') * n == r' - r;
    if q > q' {
      MultipleAtLeast(q - q', n);
    } else if q < q' {
      MultipleAtLeast(q' - q, n);
    }
  }

  lemma DivisionBelow(n: int, factor: int, x: int)
    requires n > 0 && 0 <= x < n * factor
    ensures 0 <= x / n < factor
  {
    assert x == x / n * n + x % n;
    if x / n > factor {
      MultipleAtLeast(x / n - factor, n);
    }
  }

  function SequenceOf(n: int, iteration: int, index: int): int { (iteration - 1) * n + index }

  /** The verifier's // and % give the iteration and the index of a sequence number. */
  lemma {:induction false} DivisionInverts(n: int, sequence: int)
    requires n > 0 && sequence >= 0
    ensures IterationOf(n, sequence) == sequence / n + 1 && IndexOf(n, sequence) == sequence % n
    decreases sequence
  {
    if sequence < n {
      DivisionUnique(n, 0, sequence);
    } else {
      DivisionInverts(n, sequence - n);
      var q, r := (sequence - n) / n, (sequence - n) % n;
      assert (q + 1) * n + r == sequence;
      DivisionUnique(n, q + 1, r);
    }
  }

  /** The generator's nested (iteration, index) order and the verifier's // and % are inverse bijections. */
  lemma SequenceBijection(n: int, factor: int)
    requires n > 0 && factor > 0
    ensures forall iteration, index :: 1 <= iteration <= factor && 0 <= index < n ==>
      var sequence := SequenceOf(n, iteration, index);
      0 <= sequence < n * factor && sequence / n + 1 == iteration && sequence % n == index
    ensures forall sequence :: 0 <= sequence < n * factor ==>
      1 <= sequence / n + 1 <= factor && 0 <= sequence % n < n && SequenceOf(n, sequence / n + 1, sequence % n) == sequence
  {
    forall iteration, index | 1 <= iteration <= factor && 0 <= index < n
      ensures var sequence := SequenceOf(n, iteration, index);
        0 <= sequence < n * factor && sequence / n + 1 == iteration && sequence % n == index
    {
      DivisionUnique(n, iteration - 1, index);
      SequenceInRange(n, factor, iteration, index);
    }
    forall sequence | 0 <= sequence < n * factor
      ensures 1 <= sequence / n + 1 <= factor && 0 <= sequence % n < n && SequenceOf(n, sequence / n + 1, sequence % n) == sequence
    {
      DivisionBelow(n, factor, sequence);
    }
  }

  lemma SequenceInRange(n: int, factor: int, iteration: int, index: int)
    requires 1 <= iteration <= factor && 0 <= index < n
    ensures 0 <= SequenceOf(n, iteration, index) < n * factor
  {
    if iteration > 1 { MultipleAtLeast(iteration - 1, n); }
    if iteration < factor {
      MultipleAtLeast(factor - iteration, n);
      assert (factor - iteration) * n == factor * n - iteration * n;
    }
    assert (iteration - 1) * n + n == iteration * n;
  }
}
