/** Admitting the original events of a replay plan, and generating its records in nested loops. */
module ReplayGenerator {
  import opened Common
  import opened TextOrder
  import opened ReplayRecords

  datatype ReplayError =
    | InvalidPlan | SourceChecksumMismatch | InvalidJsonLine | NoEventId | DuplicateEventId | NotOriginal | SyntheticEvent
    | IdentityBroken | SourceCountMismatch | EventIdsNotUnique | DetectionsNotUnique | OutputCountMismatch

  function Flatten(lines: seq<Line>): Line
  {
    if lines == [] then [] else Flatten(lines[..|lines| - 1]) + lines[|lines| - 1]
  }

  // ----- the source -----

  predicate HasIdentity(e: Event)
  {
    Get(e, Overwritten(EventId)).Str? && Get(e, Overwritten(EventId)).s != ""
  }

  /** An original event: classified as such, not synthetic, with its four identities equal. */
  predicate IsOriginal(e: Event)
  {
    && HasIdentity(e)
    && PyEq(Get(e, Overwritten(SourceType)), Str("NASA_ORIGINAL"))
    && Get(e, Overwritten(IsSynthetic)) == Bool(false)
    && KeepsIdentity(e)
  }

  predicate KeepsIdentity(e: Event)
  {
    && PyEq(Get(e, DetectionId), Get(e, Overwritten(EventId)))
    && PyEq(Get(e, LineageRootId), Get(e, Overwritten(EventId)))
    && PyEq(Get(e, SourceRecordId), Get(e, Overwritten(EventId)))
  }

  predicate AllParse(p: Platform, lines: seq<Line>)
  {
    forall i :: 0 <= i < |lines| ==> p.parse(lines[i]).Some?
  }

  function ParseAll(p: Platform, lines: seq<Line>): (events: seq<Event>)
    requires AllParse(p, lines)
    ensures |events| == |lines| && forall i :: 0 <= i < |lines| ==> events[i] == p.parse(lines[i]).value
  {
    if lines == [] then [] else ParseAll(p, lines[..|lines| - 1]) + [p.parse(lines[|lines| - 1]).value]
  }

  function Ids(events: seq<Event>): (ids: seq<string>)
    ensures |ids| == |events| && forall i :: 0 <= i < |events| ==> ids[i] == IdOf(events[i])
  {
    seq(|events|, i requires 0 <= i < |events| => IdOf(events[i]))
  }

  ghost predicate AllOriginal(events: seq<Event>)
  {
    forall i :: 0 <= i < |events| ==> IsOriginal(events[i])
  }

  /** The source a plan admits: the planned bytes, and as many distinct original events as planned. */
  ghost predicate SourceAdmitted(p: Platform, plan: Plan, source: seq<Line>)
  {
    && p.sha(Flatten(source)) == plan.sourceSha
    && LinesAdmitted(p, source)
    && |source| == plan.sourceRecordCount
  }

  ghost predicate LinesAdmitted(p: Platform, lines: seq<Line>)
  {
    AllParse(p, lines) && AllOriginal(ParseAll(p, lines)) && Distinct(Ids(ParseAll(p, lines)))
  }

  lemma AcceptedLine(p: Platform, source: seq<Line>, i: int, seen: set<string>)
    requires 0 <= i < |source| && LinesAdmitted(p, source[..i]) && seen == SetOf(Ids(ParseAll(p, source[..i])))
    requires AcceptsLine(p, source[i], seen)
    ensures LinesAdmitted(p, source[..i + 1])
    ensures ParseAll(p, source[..i + 1]) == ParseAll(p, source[..i]) + [p.parse(source[i]).value]
    ensures SetOf(Ids(ParseAll(p, source[..i + 1]))) == seen + {IdOf(p.parse(source[i]).value)}
  {
    var before, event := ParseAll(p, source[..i]), p.parse(source[i]).value;
    assert source[..i + 1][..i] == source[..i];
    assert AllParse(p, source[..i + 1]);
    NewIdStaysDistinct(before, event);
  }

  lemma NewIdStaysDistinct(before: seq<Event>, event: Event)
    requires IsOriginal(event) && AllOriginal(before) && Distinct(Ids(before)) && IdOf(event) !in SetOf(Ids(before))
    ensures AllOriginal(before + [event]) && Distinct(Ids(before + [event]))
    ensures SetOf(Ids(before + [event])) == SetOf(Ids(before)) + {IdOf(event)}
  {
    assert Ids(before + [event]) == Ids(before) + [IdOf(event)];
  }

  /** The admitted originals, in event id order. */
  function Originals(p: Platform, source: seq<Line>): (originals: seq<Event>)
    requires AllParse(p, source)
    ensures |originals| == |source|
  {
    SortByText(ParseAll(p, source), IdOf)
  }

  method LoadOriginalEvents(p: Platform, plan: Plan, source: seq<Line>) returns (r: Result<seq<Event>, ReplayError>)
    ensures r.Ok? <==> SourceAdmitted(p, plan, source)
    ensures r.Ok? ==> r.value == Originals(p, source)
  {
    if p.sha(Flatten(source)) != plan.sourceSha {
      return Err(SourceChecksumMismatch);
    }
    var originals: seq<Event> := [];
    var seen: set<string> := {};
    for i := 0 to |source|
      invariant LinesAdmitted(p, source[..i])
      invariant originals == ParseAll(p, source[..i])
      invariant seen == SetOf(Ids(originals))
    {
      var error := CheckOriginal(p, source[i], seen);
      if error.Some? {
        RejectedLine(p, source, i, seen);
        return Err(error.value);
      }
      var event := p.parse(source[i]).value;
      AcceptedLine(p, source, i, seen);
      seen := seen + {IdOf(event)};
      originals := originals + [event];
    }
    assert source[..|source|] == source;
    if |originals| != plan.sourceRecordCount {
      return Err(SourceCountMismatch);
    }
    return Ok(SortByText(originals, IdOf));
  }

  /** One line is an original event with an id not seen before. */
  predicate AcceptsLine(p: Platform, line: Line, seen: set<string>)
  {
    p.parse(line).Some? && IsOriginal(p.parse(line).value) && IdOf(p.parse(line).value) !in seen
  }

  method CheckOriginal(p: Platform, line: Line, seen: set<string>) returns (error: Option<ReplayError>)
    ensures error.None? <==> AcceptsLine(p, line, seen)
  {
    var parsed := p.parse(line);
    if parsed.None? {
      return Some(InvalidJsonLine);
    }
    var event := parsed.value;
    if !HasIdentity(event) {
      return Some(NoEventId);
    }
    if IdOf(event) in seen {
      return Some(DuplicateEventId);
    }
    if !PyEq(Get(event, Overwritten(SourceType)), Str("NASA_ORIGINAL")) {
      return Some(NotOriginal);
    }
    if Get(event, Overwritten(IsSynthetic)) != Bool(false) {
      return Some(SyntheticEvent);
    }
    if !KeepsIdentity(event) {
      return Some(IdentityBroken);
    }
    return None;
  }

  lemma RejectedLine(p: Platform, source: seq<Line>, i: int, seen: set<string>)
    requires 0 <= i < |source| && AllParse(p, source[..i]) && seen == SetOf(Ids(ParseAll(p, source[..i])))
    requires !AcceptsLine(p, source[i], seen)
    ensures !LinesAdmitted(p, source)
  {
    if AllParse(p, source) && AllOriginal(ParseAll(p, source)) {
      var all, before := Ids(ParseAll(p, source)), Ids(ParseAll(p, source[..i]));
      assert IsOriginal(ParseAll(p, source)[i]);
      IdOfLine(p, source, i);
      assert all[i] in before;
      var j :| 0 <= j < i && before[j] == all[i];
      SameIdInPrefix(p, source, i, j);
    }
  }

  lemma IdOfLine(p: Platform, lines: seq<Line>, j: nat)
    requires AllParse(p, lines) && j < |lines|
    ensures Ids(ParseAll(p, lines))[j] == IdOf(p.parse(lines[j]).value)
  {
  }

  lemma SameIdInPrefix(p: Platform, lines: seq<Line>, i: nat, j: nat)
    requires AllParse(p, lines) && j < i <= |lines| && AllParse(p, lines[..i])
    ensures Ids(ParseAll(p, lines[..i]))[j] == Ids(ParseAll(p, lines))[j]
  {
    IdOfLine(p, lines, j);
    IdOfLine(p, lines[..i], j);
  }

  /** The originals are sorted by event id, and every one of them comes from the source. */
  lemma OriginalsAreSorted(p: Platform, plan: Plan, source: seq<Line>)
    requires SourceAdmitted(p, plan, source)
    ensures var originals := Originals(p, source);
      && SortedByText(originals, IdOf)
      && multiset(originals) == multiset(ParseAll(p, source))
      && AllOriginal(originals) && Distinct(Ids(originals))
  {
    var parsed, originals := ParseAll(p, source), Originals(p, source);
    SortIsSorted(parsed, IdOf);
    forall i | 0 <= i < |originals| ensures IsOriginal(originals[i]) {
      assert originals[i] in multiset(originals);
      assert originals[i] in parsed;
    }
    SortKeepsIdsDistinct(parsed, originals);
  }

  lemma SortKeepsIdsDistinct(a: seq<Event>, b: seq<Event>)
    requires multiset(a) == multiset(b) && Distinct(Ids(a))
    ensures Distinct(Ids(b))
  {
    assert |a| == |multiset(a)| == |multiset(b)| == |b|;
    assert SetOf(Ids(a)) == SetOf(Ids(b)) by {
      forall x ensures x in Ids(a) <==> x in Ids(b) {
        if x in Ids(a) {
          var i :| 0 <= i < |a| && Ids(a)[i] == x;
          assert a[i] in multiset(b);
          var j :| 0 <= j < |b| && b[j] == a[i];
          assert Ids(b)[j] == x;
        }
        if x in Ids(b) {
          var i :| 0 <= i < |b| && Ids(b)[i] == x;
          assert b[i] in multiset(a);
          var j :| 0 <= j < |a| && a[j] == b[i];
          assert Ids(a)[j] == x;
        }
      }
    }
    DistinctCardinality(Ids(a));
    DistinctCardinality(Ids(b));
  }

  // ----- generation -----

  datatype Manifest = Manifest(succeeded: bool, replayRunId: string, plan: Plan, pipelineVersion: string,
                               outputCount: int, outputSha: string, outputBytes: int, firstStamp: string, lastStamp: string)

  function RenderAll(p: Platform, records: seq<Event>): (lines: seq<Line>)
    ensures |lines| == |records| && forall i :: 0 <= i < |records| ==> lines[i] == p.render(records[i])
  {
    if records == [] then [] else RenderAll(p, records[..|records| - 1]) + [p.render(records[|records| - 1])]
  }

  /** How many records the iterations before this one have written. */
  function FirstOf(n: nat, iteration: int): nat
    requires iteration >= 1
  {
    if iteration == 1 then 0 else FirstOf(n, iteration - 1) + n
  }

  lemma {:induction false} FirstIsSequence(n: nat, iteration: int)
    requires iteration >= 1
    ensures FirstOf(n, iteration) == SequenceOf(n, iteration, 0)
  {
    if iteration > 1 {
      FirstIsSequence(n, iteration - 1);
      assert (iteration - 1) * n == (iteration - 2) * n + n;
    }
  }

  /** How many records a plan has: source_record_count * replay_factor. */
  function PlanSize(plan: Plan): nat
    requires plan.sourceRecordCount > 0 && plan.replayFactor > 0
  {
    FirstOf(plan.sourceRecordCount, plan.replayFactor + 1)
  }

  lemma PlanSizeIsProduct(plan: Plan)
    requires ValidPlan(plan)
    ensures PlanSize(plan) == plan.sourceRecordCount * plan.replayFactor > 0
  {
    FirstIsSequence(plan.sourceRecordCount, plan.replayFactor + 1);
    MultipleAtLeast(plan.replayFactor, plan.sourceRecordCount);
  }

  /** The manifest of a finished generation whose artifact is these lines. */
  function ManifestFor(p: Platform, plan: Plan, pipelineVersion: string, lines: seq<Line>): Manifest
  {
    Manifest(true, p.runId(plan), plan, pipelineVersion, |lines|, p.sha(Flatten(lines)), |Flatten(lines)|,
             p.stamp(ScheduledMillisecond(plan, 0)), p.stamp(ScheduledMillisecond(plan, if lines == [] then 0 else |lines| - 1)))
  }

  function PlanItems(p: Platform, plan: Plan, originals: seq<Event>, pipelineVersion: string): seq<Item>
    requires |originals| == plan.sourceRecordCount > 0 && plan.replayFactor > 0
  {
    Items(p, plan, originals, pipelineVersion, PlanSize(plan))
  }

  /** All records of a plan over an admitted source. */
  function PlanRecords(p: Platform, plan: Plan, source: seq<Line>, pipelineVersion: string): seq<Event>
    requires AllParse(p, source) && |source| == plan.sourceRecordCount > 0 && plan.replayFactor > 0
  {
    RecordsOf(PlanItems(p, plan, Originals(p, source), pipelineVersion))
  }

  lemma RecordIds(p: Platform, plan: Plan, originals: seq<Event>, pipelineVersion: string, s: nat)
    requires plan.sourceRecordCount > 0 && |originals| == plan.sourceRecordCount
    ensures IdOf(RecordAt(p, plan, originals, pipelineVersion, s))
         == p.eventId(p.runId(plan), IdOf(originals[IndexOf(plan.sourceRecordCount, s)]), IterationOf(plan.sourceRecordCount, s))
  {
    assert Overwritten(EventId) in OVERWRITTEN;
  }

  function DetectionOf(e: Event): string
  {
    match Get(e, DetectionId)
    case Str(s) => s
    case _ => ""
  }

  /** An original's detection id is its event id, so a source of distinct events is a source of distinct detections. */
  lemma DetectionsAreEvents(originals: seq<Event>)
    requires AllOriginal(originals) && Distinct(Ids(originals))
    ensures forall i :: 0 <= i < |originals| ==> DetectionOf(originals[i]) == IdOf(originals[i])
    ensures |set i | 0 <= i < |originals| :: DetectionOf(originals[i])| == |originals|
  {
    forall i | 0 <= i < |originals| ensures DetectionOf(originals[i]) == IdOf(originals[i]) {
      assert IsOriginal(originals[i]);
      PyEqOnText(Get(originals[i], DetectionId), IdOf(originals[i]));
    }
    DistinctCardinality(Ids(originals));
    var detections := set i | 0 <= i < |originals| :: DetectionOf(originals[i]);
    assert detections == SetOf(Ids(originals)) by {
      forall d | d in detections ensures d in Ids(originals) {
        var i :| 0 <= i < |originals| && DetectionOf(originals[i]) == d;
        assert Ids(originals)[i] == d;
      }
      forall d | d in Ids(originals) ensures d in detections {
        var i :| 0 <= i < |originals| && Ids(originals)[i] == d;
        assert DetectionOf(originals[i]) == d;
      }
    }
  }

  /** What the writing loops have produced after some records. */
  datatype Progress = Progress(lines: seq<Line>, bytes: nat, ids: set<string>, first: Option<string>, last: Option<string>)

  /** Writing one record: its line, its length, its event id, and the schedule boundaries. */
  function Write(p: Platform, w: Progress, item: Item): Progress
  {
    var line := p.render(item.record);
    Progress(w.lines + [line], w.bytes + |line|, w.ids + {IdOf(item.record)},
             if w.first.None? then Some(item.stamp) else w.first, Some(item.stamp))
  }

  /** The progress after some items. */
  function ProgressOf(p: Platform, items: seq<Item>): Progress
  {
    if items == [] then Progress([], 0, {}, None, None)
    else Write(p, ProgressOf(p, items[..|items| - 1]), items[|items| - 1])
  }

  /** The lines of this progress are those of these records. */
  ghost predicate LinesAreOf(p: Platform, records: seq<Event>, w: Progress)
  {
    w.lines == RenderAll(p, records) && w.bytes == |Flatten(w.lines)|
  }

  lemma {:induction false} ProgressLines(p: Platform, items: seq<Item>)
    ensures LinesAreOf(p, RecordsOf(items), ProgressOf(p, items))
  {
    if items == [] {
      NoLines(p);
    } else {
      ProgressLines(p, items[..|items| - 1]);
      LastLine(p, items);
    }
  }

  lemma NoLines(p: Platform)
    ensures LinesAreOf(p, RecordsOf([]), ProgressOf(p, []))
  {
  }

  lemma LastLine(p: Platform, items: seq<Item>)
    requires items != [] && LinesAreOf(p, RecordsOf(items[..|items| - 1]), ProgressOf(p, items[..|items| - 1]))
    ensures LinesAreOf(p, RecordsOf(items), ProgressOf(p, items))
  {
    LastRecord(items);
    WriteAddsLine(p, RecordsOf(items[..|items| - 1]), ProgressOf(p, items[..|items| - 1]), items[|items| - 1]);
  }

  lemma LastRecord(items: seq<Item>)
    requires items != []
    ensures RecordsOf(items) == RecordsOf(items[..|items| - 1]) + [items[|items| - 1].record]
  {
  }

  lemma WriteAddsLine(p: Platform, records: seq<Event>, w: Progress, item: Item)
    requires LinesAreOf(p, records, w)
    ensures LinesAreOf(p, records + [item.record], Write(p, w, item))
  {
    RenderMore(p, records, item.record);
  }

  lemma {:induction false} ProgressIds(p: Platform, items: seq<Item>)
    ensures ProgressOf(p, items).ids == SetOf(Ids(RecordsOf(items)))
  {
    if items == [] {
      assert SetOf(Ids(RecordsOf(items))) == {};
    } else {
      var front, item := items[..|items| - 1], items[|items| - 1];
      ProgressIds(p, front);
      assert Ids(RecordsOf(items)) == Ids(RecordsOf(front)) + [IdOf(item.record)];
    }
  }

  lemma {:induction false} ProgressStamps(p: Platform, items: seq<Item>)
    ensures var w := ProgressOf(p, items);
      if items == [] then w.first == None else w.first == Some(items[0].stamp) && w.last == Some(items[|items| - 1].stamp)
  {
    if items != [] { ProgressStamps(p, items[..|items| - 1]); }
  }

  /** What has been written, counted and noted after some items. */
  lemma ProgressIs(p: Platform, items: seq<Item>)
    ensures var w := ProgressOf(p, items);
      && w.lines == RenderAll(p, RecordsOf(items))
      && w.bytes == |Flatten(w.lines)|
      && w.ids == SetOf(Ids(RecordsOf(items)))
      && (items != [] ==> w.first == Some(items[0].stamp) && w.last == Some(items[|items| - 1].stamp))
  {
    ProgressLines(p, items);
    ProgressIds(p, items);
    ProgressStamps(p, items);
  }

  lemma RenderMore(p: Platform, records: seq<Event>, record: Event)
    ensures RenderAll(p, records + [record]) == RenderAll(p, records) + [p.render(record)]
    ensures Flatten(RenderAll(p, records) + [p.render(record)]) == Flatten(RenderAll(p, records)) + p.render(record)
  {
    assert (records + [record])[..|records|] == records;
    var lines := RenderAll(p, records);
    assert (lines + [p.render(record)])[..|lines|] == lines;
  }

  lemma {:induction false} PlaceInIteration(n: nat, iteration: int, index: nat)
    requires iteration >= 1 && index < n
    ensures IterationOf(n, FirstOf(n, iteration) + index) == iteration
    ensures IndexOf(n, FirstOf(n, iteration) + index) == index
  {
    if iteration > 1 { PlaceInIteration(n, iteration - 1, index); }
  }

  method SequenceNumber(n: nat, iteration: int, index: nat) returns (sequence: nat)
    requires iteration >= 1
    ensures sequence == FirstOf(n, iteration) + index
  {
    FirstIsSequence(n, iteration);
    sequence := (iteration - 1) * n + index;
  }

  /** The stamp of the truncated schedule time. */
  method StampAt(p: Platform, plan: Plan, sequence: nat) returns (stamp: string)
    ensures stamp == p.stamp(ScheduledMillisecond(plan, sequence))
  {
    ScheduleIsTruncation(plan, sequence);
    stamp := p.stamp(Milliseconds(plan.scheduledStart + sequence * plan.intervalMilliseconds * 1000));
  }

  /** The body of the loops: build the record of (iteration, index) and its stamp. */
  method BuildItem(p: Platform, plan: Plan, originals: seq<Event>, pipelineVersion: string, iteration: int, index: nat) returns (item: Item)
    requires plan.sourceRecordCount > 0 && |originals| == plan.sourceRecordCount && index < |originals| && iteration >= 1
    ensures item == ItemAt(p, plan, originals, pipelineVersion, FirstOf(plan.sourceRecordCount, iteration) + index)
  {
    var sequence := SequenceNumber(plan.sourceRecordCount, iteration, index);
    var stamp := StampAt(p, plan, sequence);
    PlaceInIteration(plan.sourceRecordCount, iteration, index);
    item := RecordItem(p, plan, originals, pipelineVersion, index, Replay(p.runId(plan), iteration, sequence, stamp, pipelineVersion));
  }

  method RecordItem(p: Platform, plan: Plan, originals: seq<Event>, pipelineVersion: string, index: nat, coordinates: Replay)
    returns (item: Item)
    requires plan.sourceRecordCount > 0 && |originals| == plan.sourceRecordCount && coordinates.sequence >= 0
    requires index == IndexOf(plan.sourceRecordCount, coordinates.sequence)
    requires coordinates == ReplayAt(p, plan, pipelineVersion, coordinates.sequence)
    ensures item == ItemAt(p, plan, originals, pipelineVersion, coordinates.sequence)
  {
    var record := BuildReplayEvent(p, originals[index], coordinates);
    item := Item(record, coordinates.stamp);
  }

  /** The progress after the first count of these items. */
  ghost predicate Progressed(p: Platform, items: seq<Item>, count: int, w: Progress)
  {
    0 <= count <= |items| && forall front {:trigger ProgressOf(p, front)} :: front == items[..count] ==> w == ProgressOf(p, front)
  }

  lemma ProgressesByOne(p: Platform, items: seq<Item>, count: nat, w: Progress)
    requires count < |items| && Progressed(p, items, count, w)
    ensures Progressed(p, items, count + 1, Write(p, w, items[count]))
  {
    assert items[..count + 1][..count] == items[..count];
    assert w == ProgressOf(p, items[..count]);
  }

  /** One pass of the inner loop's body: the next item of the plan is built and written. */
  method WriteNext(p: Platform, plan: Plan, originals: seq<Event>, pipelineVersion: string, iteration: int, index: nat,
                   ghost items: seq<Item>, before: Progress)
    returns (w: Progress)
    requires plan.sourceRecordCount > 0 && |originals| == plan.sourceRecordCount && index < |originals| && iteration >= 1
    requires ArePlanItems(p, plan, originals, pipelineVersion, items)
    requires FirstOf(plan.sourceRecordCount, iteration) + index < |items|
    requires Progressed(p, items, FirstOf(plan.sourceRecordCount, iteration) + index, before)
    ensures Progressed(p, items, FirstOf(plan.sourceRecordCount, iteration) + index + 1, w)
  {
    ghost var count := FirstOf(plan.sourceRecordCount, iteration) + index;
    var item := BuildItem(p, plan, originals, pipelineVersion, iteration, index);
    assert item == items[count];
    w := Write(p, before, item);
    ProgressesByOne(p, items, count, before);
  }

  lemma NextFirst(n: nat, iteration: int)
    requires iteration >= 1
    ensures FirstOf(n, iteration + 1) == FirstOf(n, iteration) + n
  {
  }

  /** The inner loop: every original once, in order. */
  method WriteIteration(p: Platform, plan: Plan, originals: seq<Event>, pipelineVersion: string, iteration: int,
                        ghost items: seq<Item>, before: Progress)
    returns (w: Progress)
    requires plan.sourceRecordCount > 0 && |originals| == plan.sourceRecordCount && iteration >= 1
    requires ArePlanItems(p, plan, originals, pipelineVersion, items)
    requires FirstOf(plan.sourceRecordCount, iteration + 1) <= |items|
    requires Progressed(p, items, FirstOf(plan.sourceRecordCount, iteration), before)
    ensures Progressed(p, items, FirstOf(plan.sourceRecordCount, iteration + 1), w)
  {
    NextFirst(plan.sourceRecordCount, iteration);
    w := before;
    for index := 0 to |originals|
      invariant Progressed(p, items, FirstOf(plan.sourceRecordCount, iteration) + index, w)
    {
      w := WriteNext(p, plan, originals, pipelineVersion, iteration, index, items, w);
    }
  }

  /** The two loops: iterations 1 to replay_factor, and in each every original in order. */
  method WriteAll(p: Platform, plan: Plan, originals: seq<Event>, pipelineVersion: string, ghost items: seq<Item>) returns (w: Progress)
    requires ValidPlan(plan) && |originals| == plan.sourceRecordCount
    requires |items| == PlanSize(plan)
    requires ArePlanItems(p, plan, originals, pipelineVersion, items)
    ensures w == ProgressOf(p, items)
  {
    w := Progress([], 0, {}, None, None);
    assert w == ProgressOf(p, items[..0]);
    for iteration := 1 to plan.replayFactor + 1
      invariant FirstOf(plan.sourceRecordCount, iteration) <= |items|
      invariant Progressed(p, items, FirstOf(plan.sourceRecordCount, iteration), w)
    {
      FirstsIncrease(plan.sourceRecordCount, iteration + 1, plan.replayFactor + 1);
      w := WriteIteration(p, plan, originals, pipelineVersion, iteration, items, w);
    }
    assert w == ProgressOf(p, items[..|items|]) && items[..|items|] == items;
  }

  lemma {:induction false} FirstsIncrease(n: nat, a: int, b: int)
    requires 1 <= a <= b
    ensures FirstOf(n, a) <= FirstOf(n, b)
  {
    if a < b { FirstsIncrease(n, a, b - 1); }
  }

  /** What the counters and sets hold once all items are written. */
  ghost predicate Written(p: Platform, plan: Plan, records: seq<Event>, w: Progress)
    requires ValidPlan(plan)
  {
    && w.lines == RenderAll(p, records)
    && |w.lines| == PlanSize(plan) > 0 && w.bytes == |Flatten(w.lines)|
    && (|w.ids| == PlanSize(plan) <==> Distinct(Ids(records)))
    && w.first == Some(p.stamp(ScheduledMillisecond(plan, 0)))
    && w.last == Some(p.stamp(ScheduledMillisecond(plan, PlanSize(plan) - 1)))
  }

  lemma WrittenPlan(p: Platform, plan: Plan, originals: seq<Event>, pipelineVersion: string, w: Progress)
    requires ValidPlan(plan) && |originals| == plan.sourceRecordCount
    requires w == ProgressOf(p, PlanItems(p, plan, originals, pipelineVersion))
    ensures Written(p, plan, RecordsOf(PlanItems(p, plan, originals, pipelineVersion)), w)
  {
    var items := PlanItems(p, plan, originals, pipelineVersion);
    ItemsArePlanItems(p, plan, originals, pipelineVersion, PlanSize(plan));
    PlanSizeIsProduct(plan);
    ProgressIs(p, items);
    DistinctCardinality(Ids(RecordsOf(items)));
    var n := PlanSize(plan) - 1;
    assert items[0] == ItemAt(p, plan, originals, pipelineVersion, 0);
    assert items[n] == ItemAt(p, plan, originals, pipelineVersion, n);
  }

  /** The whole artifact and manifest, or the reason there is none; the reconciliation checks that cannot fail do not. */
  method GenerateReplay(p: Platform, plan: Plan, source: seq<Line>, pipelineVersion: string)
    returns (r: Result<(seq<Line>, Manifest), ReplayError>)
    ensures r.Ok? <==>
      ValidPlan(plan) && SourceAdmitted(p, plan, source) && Distinct(Ids(PlanRecords(p, plan, source, pipelineVersion)))
    ensures r.Ok? ==>
      var lines := RenderAll(p, PlanRecords(p, plan, source, pipelineVersion));
      r.value == (lines, ManifestFor(p, plan, pipelineVersion, lines))
  {
    if !ValidPlan(plan) {
      return Err(InvalidPlan);
    }
    var loaded := LoadOriginalEvents(p, plan, source);
    if loaded.Err? {
      return Err(loaded.error);
    }
    var originals := loaded.value;
    OriginalsAreSorted(p, plan, source);
    r := GenerateFrom(p, plan, originals, pipelineVersion);
  }

  /** The artifact and manifest of loaded originals, or the reconciliation check that failed. */
  method GenerateFrom(p: Platform, plan: Plan, originals: seq<Event>, pipelineVersion: string) returns (r: Result<(seq<Line>, Manifest), ReplayError>)
    requires ValidPlan(plan) && |originals| == plan.sourceRecordCount && AllOriginal(originals) && Distinct(Ids(originals))
    ensures r.Ok? <==> Distinct(Ids(RecordsOf(PlanItems(p, plan, originals, pipelineVersion))))
    ensures r.Ok? ==>
      var lines := RenderAll(p, RecordsOf(PlanItems(p, plan, originals, pipelineVersion)));
      r.value == (lines, ManifestFor(p, plan, pipelineVersion, lines))
  {
    var w := WritePlan(p, plan, originals, pipelineVersion);
    r := Conclude(p, plan, originals, pipelineVersion, RecordsOf(PlanItems(p, plan, originals, pipelineVersion)), w);
  }

  method Conclude(p: Platform, plan: Plan, originals: seq<Event>, pipelineVersion: string, ghost records: seq<Event>, w: Progress)
    returns (r: Result<(seq<Line>, Manifest), ReplayError>)
    requires ValidPlan(plan) && |originals| == plan.sourceRecordCount && AllOriginal(originals) && Distinct(Ids(originals))
    requires Written(p, plan, records, w)
    ensures r.Ok? <==> Distinct(Ids(records))
    ensures r.Ok? ==> var lines := RenderAll(p, records); r.value == (lines, ManifestFor(p, plan, pipelineVersion, lines))
  {
    var error := Reconcile(p, plan, originals, records, w);
    if error.Some? {
      return Err(error.value);
    }
    return Ok((w.lines, Manifest(true, p.runId(plan), plan, pipelineVersion, |w.lines|, p.sha(Flatten(w.lines)), w.bytes,
                                 w.first.value, w.last.value)));
  }

  method WritePlan(p: Platform, plan: Plan, originals: seq<Event>, pipelineVersion: string) returns (w: Progress)
    requires ValidPlan(plan) && |originals| == plan.sourceRecordCount
    ensures Written(p, plan, RecordsOf(PlanItems(p, plan, originals, pipelineVersion)), w)
  {
    ItemsArePlanItems(p, plan, originals, pipelineVersion, PlanSize(plan));
    w := WriteAll(p, plan, originals, pipelineVersion, PlanItems(p, plan, originals, pipelineVersion));
    WrittenPlan(p, plan, originals, pipelineVersion, w);
  }

  /** The three checks after the loops; only that of the event ids can fail. */
  method Reconcile(p: Platform, plan: Plan, originals: seq<Event>, ghost records: seq<Event>, w: Progress) returns (error: Option<ReplayError>)
    requires ValidPlan(plan) && |originals| == plan.sourceRecordCount && AllOriginal(originals) && Distinct(Ids(originals))
    requires Written(p, plan, records, w)
    ensures error.None? <==> Distinct(Ids(records))
  {
    var expected := plan.sourceRecordCount * plan.replayFactor;
    PlanSizeIsProduct(plan);
    if |w.lines| != expected {
      return Some(OutputCountMismatch);
    }
    if |w.ids| != expected {
      return Some(EventIdsNotUnique);
    }
    var detections := DetectionCount(originals);
    if detections != plan.sourceRecordCount {
      return Some(DetectionsNotUnique);
    }
    return None;
  }

  method DetectionCount(originals: seq<Event>) returns (count: nat)
    requires AllOriginal(originals) && Distinct(Ids(originals))
    ensures count == |originals|
  {
    DetectionsAreEvents(originals);
    count := |set i | 0 <= i < |originals| :: DetectionOf(originals[i])|;
  }
}
