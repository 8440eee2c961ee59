/** The independent replay verifier, sound and complete for the generator up to Python's equality. */
module ReplayVerifier {
  import opened Common
  import opened TextOrder
  import opened ReplayRecords
  import opened ReplayGenerator

  datatype VerifyError =
    | NotSuccessful | PlanInvalid | IdentityMismatch | SourceRefused(error: ReplayError) | LineNotJson(line: nat)
    | InvalidField(line: nat) | ChangedOriginalField(line: nat) | UnexpectedFieldSet(line: nat)
    | RowCountMismatch | FrequencyMismatch | ChecksumMismatch | SizeMismatch | BoundaryMismatch

  // ----- one record -----

  /** The same fields, equal in Python's sense. */
  predicate Agrees(event: Event, expected: Event)
  {
    event.Keys == expected.Keys && forall f :: f in expected ==> PyEq(Get(event, f), expected[f])
  }

  /** The verifier's own account of the overwritten fields, written without the generator's. */
  function ExpectedValue(p: Platform, f: OverwrittenField, r: Replay, parent: string): Json
  {
    if f in {KafkaTopic, KafkaPartition, KafkaOffset, KafkaTimestamp} then Null
    else if f in {ValidationStatus, DeduplicationStatus} then Str("PENDING")
    else match f
      case ReplaySequenceNumber => Int(r.sequence)
      case ReplayIteration => Int(r.iteration)
      case IsSynthetic => Bool(false)
      case ValidationErrorCodes => Arr([])
      case EventId => Str(p.eventId(r.runId, parent, r.iteration))
      case ParentEventId => Str(parent)
      case SourceType => Str("NASA_REPLAY")
      case ReplayRunId => Str(r.runId)
      case ScheduledReplayTimestamp => Str(r.stamp)
      case PipelineVersion => Str(r.pipelineVersion)
      case EnrichmentStatus => Str("NOT_STARTED")
      case _ => Null
  }

  /** Generator and verifier mean the same values. */
  lemma ExpectedIsOverwritten(p: Platform, f: OverwrittenField, r: Replay, parent: string)
    ensures ExpectedValue(p, f, r, parent) == Overwrite(p, f, r, parent)
  {
    match f
    case EventId => case ParentEventId => case SourceType => case IsSynthetic => case ReplayRunId => case ReplayIteration =>
    case ReplaySequenceNumber => case ScheduledReplayTimestamp => case PipelineVersion => case KafkaTopic => case KafkaPartition =>
    case KafkaOffset => case KafkaTimestamp => case ValidationStatus => case ValidationErrorCodes => case DeduplicationStatus =>
    case EnrichmentStatus =>
  }

  predicate OverwrittenFieldsHold(p: Platform, event: Event, original: Event, r: Replay)
  {
    forall f: OverwrittenField :: PyEq(Get(event, Overwritten(f)), ExpectedValue(p, f, r, IdOf(original)))
  }

  predicate OriginalFieldsHold(event: Event, original: Event)
  {
    forall f :: f in original && !f.Overwritten? ==> PyEq(Get(event, f), original[f])
  }

  /** The verifier's three checks together compare the record with the one the generator builds. */
  lemma ChecksAreAgreement(p: Platform, event: Event, original: Event, r: Replay)
    ensures OverwrittenFieldsHold(p, event, original, r) && OriginalFieldsHold(event, original) && event.Keys == original.Keys + OVERWRITTEN
      <==> Agrees(event, BuildReplayEvent(p, original, r))
  {
    var expected := BuildReplayEvent(p, original, r);
    assert expected.Keys == original.Keys + OVERWRITTEN;
    if Agrees(event, expected) {
      forall f: OverwrittenField ensures PyEq(Get(event, Overwritten(f)), ExpectedValue(p, f, r, IdOf(original))) {
        ExpectedIsOverwritten(p, f, r, IdOf(original));
        assert Overwritten(f) in expected && expected[Overwritten(f)] == Overwrite(p, f, r, IdOf(original));
      }
      forall f | f in original && !f.Overwritten? ensures PyEq(Get(event, f), original[f]) {
        assert f in expected && expected[f] == original[f];
      }
    } else {
      forall f: OverwrittenField ensures ExpectedValue(p, f, r, IdOf(original)) == Overwrite(p, f, r, IdOf(original)) {
        ExpectedIsOverwritten(p, f, r, IdOf(original));
      }
    }
  }

  method CheckRecord(p: Platform, event: Event, original: Event, r: Replay, line: nat) returns (error: Option<VerifyError>)
    ensures error.None? <==> Agrees(event, BuildReplayEvent(p, original, r))
  {
    ChecksAreAgreement(p, event, original, r);
    if !OverwrittenFieldsHold(p, event, original, r) {
      return Some(InvalidField(line));
    }
    if !OriginalFieldsHold(event, original) {
      return Some(ChangedOriginalField(line));
    }
    if event.Keys != original.Keys + OVERWRITTEN {
      return Some(UnexpectedFieldSet(line));
    }
    return None;
  }

  /** A line of the artifact is the record its position stands for. */
  ghost predicate LineAgrees(p: Platform, plan: Plan, originals: seq<Event>, pipelineVersion: string, line: Line, sequence: nat)
    requires plan.sourceRecordCount > 0 && |originals| == plan.sourceRecordCount
  {
    p.parse(line).Some? && Agrees(p.parse(line).value, RecordAt(p, plan, originals, pipelineVersion, sequence))
  }

  method CheckLine(p: Platform, plan: Plan, originals: seq<Event>, pipelineVersion: string, line: Line, sequence: nat)
    returns (r: Result<Event, VerifyError>)
    requires plan.sourceRecordCount > 0 && |originals| == plan.sourceRecordCount
    ensures r.Ok? <==> LineAgrees(p, plan, originals, pipelineVersion, line, sequence)
    ensures r.Ok? ==> p.parse(line) == Some(r.value)
  {
    var parsed := p.parse(line);
    if parsed.None? {
      return Err(LineNotJson(sequence + 1));
    }
    DivisionInverts(plan.sourceRecordCount, sequence);
    var iteration := sequence / plan.sourceRecordCount + 1;
    var original := originals[sequence % plan.sourceRecordCount];
    var stamp := StampAt(p, plan, sequence);
    var error := CheckRecord(p, parsed.value, original, Replay(p.runId(plan), iteration, sequence, stamp, pipelineVersion), sequence + 1);
    if error.Some? {
      return Err(error.value);
    }
    return Ok(parsed.value);
  }

  // ----- detection frequencies -----

  /** How many of the first count sequence numbers have this index. */
  function Rounds(n: int, count: nat, index: nat): nat
    requires n > 0
  {
    IterationOf(n, count) - 1 + if index < IndexOf(n, count) then 1 else 0
  }

  lemma {:induction false} NextPlace(n: int, count: nat)
    requires n > 0
    ensures if IndexOf(n, count) == n - 1
            then IndexOf(n, count + 1) == 0 && IterationOf(n, count + 1) == IterationOf(n, count) + 1
            else IndexOf(n, count + 1) == IndexOf(n, count) + 1 && IterationOf(n, count + 1) == IterationOf(n, count)
    decreases count
  {
    if count >= n { NextPlace(n, count - n); }
  }

  lemma {:induction false} PlaceBelow(n: int, count: nat)
    requires n > 0
    ensures count < n ==> IndexOf(n, count) == count && IterationOf(n, count) == 1
    ensures count >= n ==> IterationOf(n, count) >= 2
  {
  }

  /** The counter after count records, counted one record at a time. */
  function Tallied(ids: seq<string>, count: nat): map<string, nat>
    requires ids != []
  {
    if count == 0 then map[] else CountedOnceMore(Tallied(ids, count - 1), ids[IndexOf(|ids|, count - 1)])
  }

  /** `detection_counts[detection] += 1` */
  function CountedOnceMore(counts: map<string, nat>, detection: string): map<string, nat>
  {
    counts[detection := (if detection in counts then counts[detection] else 0) + 1]
  }

  /** Every detection met so far, with the number of its rounds. */
  ghost predicate CountsAre(ids: seq<string>, counts: map<string, nat>, count: nat)
    requires ids != []
  {
    && (forall k :: 0 <= k < |ids| && k < count ==> ids[k] in counts && counts[ids[k]] == Rounds(|ids|, count, k))
    && (forall d {:trigger MetBefore(ids, count, d)} :: d in counts ==> MetBefore(ids, count, d))
  }

  ghost predicate MetBefore(ids: seq<string>, count: nat, d: string)
  {
    exists k :: 0 <= k < |ids| && k < count && ids[k] == d
  }

  lemma {:induction false} TalliedCounts(ids: seq<string>, count: nat)
    requires ids != [] && Distinct(ids)
    ensures CountsAre(ids, Tallied(ids, count), count)
  {
    if count > 0 {
      TalliedCounts(ids, count - 1);
      OneMoreTallied(ids, Tallied(ids, count - 1), count);
    }
  }

  lemma RoundsStep(n: int, count: nat, k: nat)
    requires n > 0 && k < n
    ensures Rounds(n, count + 1, k) == Rounds(n, count, k) + (if k == IndexOf(n, count) then 1 else 0)
    ensures k >= count ==> Rounds(n, count, k) == 0 && (k == IndexOf(n, count) <==> k == count)
  {
    NextPlace(n, count);
    PlaceBelow(n, count);
  }

  lemma IndexIsMet(n: int, count: nat)
    requires n > 0
    ensures IndexOf(n, count) <= count
  {
    PlaceBelow(n, count);
  }

  lemma OneMoreTallied(ids: seq<string>, before: map<string, nat>, count: nat)
    requires ids != [] && Distinct(ids) && count > 0 && before == Tallied(ids, count - 1) && CountsAre(ids, before, count - 1)
    ensures CountsAre(ids, Tallied(ids, count), count)
  {
    assert Tallied(ids, count) == CountedOnceMore(before, ids[IndexOf(|ids|, count - 1)]);
    CountOneMore(ids, before, count - 1);
  }

  lemma CountOneMore(ids: seq<string>, counts: map<string, nat>, count: nat)
    requires ids != [] && Distinct(ids) && CountsAre(ids, counts, count)
    ensures CountsAre(ids, CountedOnceMore(counts, ids[IndexOf(|ids|, count)]), count + 1)
  {
    var after := CountedOnceMore(counts, ids[IndexOf(|ids|, count)]);
    forall k | 0 <= k < |ids| && k < count + 1 ensures ids[k] in after && after[ids[k]] == Rounds(|ids|, count + 1, k) {
      CountedExactly(ids, counts, count, k);
    }
    forall d | d in after ensures MetBefore(ids, count + 1, d) {
      OnlyMetAreCounted(ids, counts, count, d);
    }
  }

  lemma OnlyMetAreCounted(ids: seq<string>, counts: map<string, nat>, count: nat, d: string)
    requires ids != [] && (d in counts ==> MetBefore(ids, count, d)) && (d in counts || d == ids[IndexOf(|ids|, count)])
    ensures MetBefore(ids, count + 1, d)
  {
    IndexIsMet(|ids|, count);
    if d in counts {
      var k :| 0 <= k < |ids| && k < count && ids[k] == d;
    }
  }

  lemma CountedExactly(ids: seq<string>, counts: map<string, nat>, count: nat, k: nat)
    requires ids != [] && Distinct(ids) && CountsAre(ids, counts, count) && k < |ids| && k < count + 1
    ensures var after := CountedOnceMore(counts, ids[IndexOf(|ids|, count)]);
      ids[k] in after && after[ids[k]] == Rounds(|ids|, count + 1, k)
  {
    var at := IndexOf(|ids|, count);
    RoundsStep(|ids|, count, k);
    if k == at {
      MetExactly(ids, counts, count, k);
    } else {
      assert ids[k] != ids[at];
    }
  }

  lemma MetExactly(ids: seq<string>, counts: map<string, nat>, count: nat, k: nat)
    requires ids != [] && Distinct(ids) && CountsAre(ids, counts, count) && k < |ids|
    ensures ids[k] in counts <==> k < count
  {
    if ids[k] in counts {
      assert MetBefore(ids, count, ids[k]);
      var j :| 0 <= j < |ids| && j < count && ids[j] == ids[k];
      assert j == k;
    }
  }

  /** After a whole plan every detection has been counted replay_factor times. */
  lemma CountsOfPlan(ids: seq<string>, counts: map<string, nat>, factor: int)
    requires ids != [] && factor > 0 && CountsAre(ids, counts, FirstOf(|ids|, factor + 1))
    ensures counts.Values == {factor}
  {
    var n := |ids|;
    PlaceInIteration(n, factor + 1, 0);
    assert FirstOf(n, factor + 1) >= n;
    forall v | v in counts.Values ensures v == factor {
      var d :| d in counts && counts[d] == v;
      assert MetBefore(ids, FirstOf(n, factor + 1), d);
      var k :| 0 <= k < n && k < FirstOf(n, factor + 1) && ids[k] == d;
    }
    assert counts[ids[0]] in counts.Values;
  }

  // ----- the verifier -----

  /** What verify_manifest accepts, without the frequency check: that one can never fail. */
  ghost predicate AcceptsArtifact(p: Platform, m: Manifest, source: seq<Line>, artifact: seq<Line>)
  {
    && m.succeeded && ValidPlan(m.plan) && m.replayRunId == p.runId(m.plan)
    && SourceAdmitted(p, m.plan, source)
    && ArtifactMatches(p, m, Originals(p, source), artifact)
  }

  ghost predicate ArtifactMatches(p: Platform, m: Manifest, originals: seq<Event>, artifact: seq<Line>)
    requires ValidPlan(m.plan) && |originals| == m.plan.sourceRecordCount
  {
    TotalsMatch(p, m, artifact) && LinesAgree(p, m.plan, originals, m.pipelineVersion, artifact)
  }

  function LastSequence(plan: Plan): nat
    requires ValidPlan(plan)
  {
    PlanSizeIsProduct(plan);
    PlanSize(plan) - 1
  }

  ghost predicate LinesAgree(p: Platform, plan: Plan, originals: seq<Event>, pipelineVersion: string, artifact: seq<Line>)
    requires plan.sourceRecordCount > 0 && |originals| == plan.sourceRecordCount
  {
    forall s :: 0 <= s < |artifact| ==> LineAgrees(p, plan, originals, pipelineVersion, artifact[s], s)
  }

  /** For each line of the artifact, whether it agrees. */
  ghost predicate Judged(p: Platform, plan: Plan, originals: seq<Event>, pipelineVersion: string, artifact: seq<Line>, agrees: seq<bool>)
    requires plan.sourceRecordCount > 0 && |originals| == plan.sourceRecordCount
  {
    && |agrees| == |artifact|
    && forall s {:trigger LineAgrees(p, plan, originals, pipelineVersion, artifact[s], s)} :: 0 <= s < |artifact| ==>
      (agrees[s] <==> LineAgrees(p, plan, originals, pipelineVersion, artifact[s], s))
  }

  datatype Scan = Scan(counts: map<string, nat>, first: Option<string>, last: Option<string>)

  /** What a checked line adds: one more of its detection, and its stamp is the last and perhaps the first. */
  function Noted(scan: Scan, detection: string, stamp: string): Scan
  {
    Scan(CountedOnceMore(scan.counts, detection), if scan.first.Some? then scan.first else Some(stamp), Some(stamp))
  }

  /** The counter and the schedule boundaries after count lines. */
  function ScanOf(p: Platform, plan: Plan, artifact: seq<Line>, count: nat): Scan
    requires count <= |artifact|
  {
    if count == 0 then Scan(map[], None, None)
    else
      var before := ScanOf(p, plan, artifact, count - 1);
      match p.parse(artifact[count - 1])
      case Some(event) => Noted(before, DetectionOf(event), p.stamp(ScheduledMillisecond(plan, count - 1)))
      case None => before
  }

  /** The record loop, which also notes the first and last schedule stamps. */
  method ScanArtifact(p: Platform, plan: Plan, originals: seq<Event>, pipelineVersion: string, artifact: seq<Line>)
    returns (r: Result<Scan, VerifyError>)
    requires plan.sourceRecordCount > 0 && |originals| == plan.sourceRecordCount
    ensures r.Ok? <==> LinesAgree(p, plan, originals, pipelineVersion, artifact)
    ensures r.Ok? ==> r.value == ScanOf(p, plan, artifact, |artifact|)
  {
    ghost var agrees := seq(|artifact|, s requires 0 <= s < |artifact| => LineAgrees(p, plan, originals, pipelineVersion, artifact[s], s));
    r := ScanLines(p, plan, originals, pipelineVersion, artifact, agrees);
    if r.Ok? {
      forall s | 0 <= s < |artifact| ensures LineAgrees(p, plan, originals, pipelineVersion, artifact[s], s) {
        assert agrees[s];
      }
    }
  }

  method ScanLines(p: Platform, plan: Plan, originals: seq<Event>, pipelineVersion: string, artifact: seq<Line>, ghost agrees: seq<bool>)
    returns (r: Result<Scan, VerifyError>)
    requires plan.sourceRecordCount > 0 && |originals| == plan.sourceRecordCount
    requires Judged(p, plan, originals, pipelineVersion, artifact, agrees)
    ensures r.Ok? <==> forall s :: 0 <= s < |agrees| ==> agrees[s]
    ensures r.Ok? ==> r.value == ScanOf(p, plan, artifact, |artifact|)
  {
    var scan := Scan(map[], None, None);
    for i := 0 to |artifact|
      invariant forall s :: 0 <= s < i ==> agrees[s]
      invariant scan == ScanOf(p, plan, artifact, i)
    {
      r := ScanNext(p, plan, originals, pipelineVersion, artifact, agrees, i, scan);
      if r.Err? {
        return;
      }
      scan := r.value;
    }
    return Ok(scan);
  }

  /** The loop body: the next line is checked, its detection counted and its stamp noted. */
  method ScanNext(p: Platform, plan: Plan, originals: seq<Event>, pipelineVersion: string, artifact: seq<Line>, ghost agrees: seq<bool>, i: nat, scan: Scan)
    returns (r: Result<Scan, VerifyError>)
    requires plan.sourceRecordCount > 0 && |originals| == plan.sourceRecordCount && i < |artifact|
    requires Judged(p, plan, originals, pipelineVersion, artifact, agrees) && scan == ScanOf(p, plan, artifact, i)
    ensures r.Ok? <==> agrees[i]
    ensures r.Ok? ==> r.value == ScanOf(p, plan, artifact, i + 1)
  {
    var checked := CheckLine(p, plan, originals, pipelineVersion, artifact[i], i);
    if checked.Err? {
      return Err(checked.error);
    }
    var stamp := StampAt(p, plan, i);
    return Ok(Noted(scan, DetectionOf(checked.value), stamp));
  }

  /** The loop over agreeing lines has counted the plan's detections and noted the plan's stamps. */
  ghost predicate ScanFits(p: Platform, plan: Plan, ids: seq<string>, scan: Scan, count: nat)
    requires ids != []
  {
    && scan.counts == Tallied(ids, count)
    && (count == 0 ==> scan.first == None)
    && (count > 0 ==> scan.first == Some(p.stamp(ScheduledMillisecond(plan, 0))) && scan.last == Some(p.stamp(ScheduledMillisecond(plan, count - 1))))
  }

  /** Every line names the detection of the original in its place. */
  ghost predicate DetectionsInPlace(p: Platform, ids: seq<string>, artifact: seq<Line>)
    requires ids != []
  {
    forall s: nat {:trigger IndexOf(|ids|, s)} :: s < |artifact| ==> DetectionIs(p, artifact[s], ids[IndexOf(|ids|, s)])
  }

  lemma {:induction false} ScanInPlaceFits(p: Platform, plan: Plan, ids: seq<string>, artifact: seq<Line>, count: nat)
    requires ids != [] && count <= |artifact| && DetectionsInPlace(p, ids, artifact)
    ensures ScanFits(p, plan, ids, ScanOf(p, plan, artifact, count), count)
  {
    if count > 0 {
      ScanInPlaceFits(p, plan, ids, artifact, count - 1);
      assert DetectionIs(p, artifact[count - 1], ids[IndexOf(|ids|, count - 1)]);
      NextScanFits(p, plan, ids, artifact, count);
    }
  }

  lemma ScanOfAgreeingLines(p: Platform, plan: Plan, originals: seq<Event>, pipelineVersion: string, artifact: seq<Line>)
    requires plan.sourceRecordCount > 0 && |originals| == plan.sourceRecordCount && AllNamed(originals)
    requires LinesAgree(p, plan, originals, pipelineVersion, artifact)
    ensures ScanFits(p, plan, Ids(originals), ScanOf(p, plan, artifact, |artifact|), |artifact|)
  {
    forall s: nat | s < |artifact| ensures DetectionIs(p, artifact[s], Ids(originals)[IndexOf(|originals|, s)]) {
      DetectionIsCounted(p, plan, originals, pipelineVersion, artifact[s], s);
    }
    ScanInPlaceFits(p, plan, Ids(originals), artifact, |artifact|);
  }

  lemma NextScanFits(p: Platform, plan: Plan, ids: seq<string>, artifact: seq<Line>, count: nat)
    requires ids != [] && 0 < count <= |artifact| && ScanFits(p, plan, ids, ScanOf(p, plan, artifact, count - 1), count - 1)
    requires DetectionIs(p, artifact[count - 1], ids[IndexOf(|ids|, count - 1)])
    ensures ScanFits(p, plan, ids, ScanOf(p, plan, artifact, count), count)
  {
    NotedFits(p, plan, ids, ScanOf(p, plan, artifact, count - 1), count - 1);
  }

  ghost predicate DetectionIs(p: Platform, line: Line, detection: string)
  {
    p.parse(line).Some? && DetectionOf(p.parse(line).value) == detection
  }

  lemma NotedFits(p: Platform, plan: Plan, ids: seq<string>, scan: Scan, count: nat)
    requires ids != [] && ScanFits(p, plan, ids, scan, count)
    ensures ScanFits(p, plan, ids, Noted(scan, ids[IndexOf(|ids|, count)], p.stamp(ScheduledMillisecond(plan, count))), count + 1)
  {
  }

  /** Each original names its detection by the id the plan takes from it. */
  ghost predicate AllNamed(events: seq<Event>)
  {
    forall i :: 0 <= i < |events| ==> NamesDetection(events[i])
  }

  ghost predicate NamesDetection(e: Event)
  {
    DetectionId in e && e[DetectionId] == Str(IdOf(e))
  }

  lemma OriginalsAreNamed(events: seq<Event>)
    requires AllOriginal(events)
    ensures AllNamed(events)
  {
    forall i | 0 <= i < |events| ensures NamesDetection(events[i]) {
      assert IsOriginal(events[i]);
      PyEqOnText(Get(events[i], DetectionId), IdOf(events[i]));
    }
  }

  lemma DetectionIsCounted(p: Platform, plan: Plan, originals: seq<Event>, pipelineVersion: string, line: Line, sequence: nat)
    requires plan.sourceRecordCount > 0 && |originals| == plan.sourceRecordCount && AllNamed(originals)
    requires LineAgrees(p, plan, originals, pipelineVersion, line, sequence)
    ensures DetectionIs(p, line, Ids(originals)[IndexOf(plan.sourceRecordCount, sequence)])
  {
    var at := IndexOf(plan.sourceRecordCount, sequence);
    var record := RecordAt(p, plan, originals, pipelineVersion, sequence);
    assert NamesDetection(originals[at]);
    assert DetectionId in record && record[DetectionId] == Str(IdOf(originals[at]));
    PyEqOnText(Get(p.parse(line).value, DetectionId), IdOf(originals[at]));
  }

  method VerifyManifest(p: Platform, m: Manifest, source: seq<Line>, artifact: seq<Line>) returns (r: Result<nat, VerifyError>)
    ensures r.Ok? <==> AcceptsArtifact(p, m, source, artifact)
    ensures r.Ok? ==> r.value == PlanSize(m.plan)
  {
    if !m.succeeded {
      return Err(NotSuccessful);
    }
    if !ValidPlan(m.plan) {
      return Err(PlanInvalid);
    }
    if m.replayRunId != p.runId(m.plan) {
      return Err(IdentityMismatch);
    }
    var loaded := LoadOriginalEvents(p, m.plan, source);
    if loaded.Err? {
      return Err(SourceRefused(loaded.error));
    }
    OriginalsAreSorted(p, m.plan, source);
    r := VerifyArtifact(p, m, loaded.value, artifact);
  }

  /** The record loop and the checks after it. */
  method VerifyArtifact(p: Platform, m: Manifest, originals: seq<Event>, artifact: seq<Line>) returns (r: Result<nat, VerifyError>)
    requires ValidPlan(m.plan) && |originals| == m.plan.sourceRecordCount
    requires AllOriginal(originals) && Distinct(Ids(originals))
    ensures r.Ok? <==> ArtifactMatches(p, m, originals, artifact)
    ensures r.Ok? ==> r.value == PlanSize(m.plan)
  {
    var scanned := ScanArtifact(p, m.plan, originals, m.pipelineVersion, artifact);
    if scanned.Err? {
      return Err(scanned.error);
    }
    OriginalsAreNamed(originals);
    ScanOfAgreeingLines(p, m.plan, originals, m.pipelineVersion, artifact);
    var error := CheckTotals(p, m, Ids(originals), scanned.value, artifact);
    if error.Some? {
      return Err(error.value);
    }
    return Ok(|artifact|);
  }

  ghost predicate TotalsMatch(p: Platform, m: Manifest, artifact: seq<Line>)
    requires ValidPlan(m.plan)
  {
    && |artifact| == PlanSize(m.plan)
    && p.sha(Flatten(artifact)) == m.outputSha && |Flatten(artifact)| == m.outputBytes
    && m.firstStamp == p.stamp(ScheduledMillisecond(m.plan, 0))
    && m.lastStamp == p.stamp(ScheduledMillisecond(m.plan, LastSequence(m.plan)))
  }

  /** Row count, frequencies, checksum, size and schedule boundaries; the frequencies cannot disagree. */
  method CheckTotals(p: Platform, m: Manifest, ids: seq<string>, scan: Scan, artifact: seq<Line>) returns (error: Option<VerifyError>)
    requires ValidPlan(m.plan) && |ids| == m.plan.sourceRecordCount && Distinct(ids) && scan.counts == Tallied(ids, |artifact|)
    requires artifact != [] ==>
      && scan.first == Some(p.stamp(ScheduledMillisecond(m.plan, 0)))
      && scan.last == Some(p.stamp(ScheduledMillisecond(m.plan, |artifact| - 1)))
    ensures error.None? <==> TotalsMatch(p, m, artifact)
  {
    var expected := ExpectedCount(m.plan);
    if |artifact| != expected {
      return Some(RowCountMismatch);
    }
    TalliedCounts(ids, |artifact|);
    CountsOfPlan(ids, scan.counts, m.plan.replayFactor);
    if scan.counts.Values != {m.plan.replayFactor} {
      return Some(FrequencyMismatch);
    }
    if p.sha(Flatten(artifact)) != m.outputSha {
      return Some(ChecksumMismatch);
    }
    if |Flatten(artifact)| != m.outputBytes {
      return Some(SizeMismatch);
    }
    if scan.first != Some(m.firstStamp) || scan.last != Some(m.lastStamp) {
      return Some(BoundaryMismatch);
    }
    return None;
  }

  method ExpectedCount(plan: Plan) returns (count: nat)
    requires ValidPlan(plan)
    ensures count == PlanSize(plan) > 0
  {
    PlanSizeIsProduct(plan);
    count := plan.sourceRecordCount * plan.replayFactor;
  }
}
