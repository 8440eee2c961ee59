/** Concrete loads from the empty database on which the documented promises fail. */
module LoadWitnesses {
  import opened Common
  import opened Relational
  import opened ServingTables
  import opened PostgresLoader
  import opened LoadRuns
  import opened KeyOrder
  import opened ApiRepository
  import opened SummaryAgreement
  import TextOrder

  // ----- loads of one file -----

  const PART: string := "load_artifact/part-0.json"

  lemma PartIsLoadArtifact()
    ensures IsLoadArtifact(PART)
  {
    var normalized := seq(|PART|, i requires 0 <= i < |PART| => if PART[i] == '\\' then '/' else PART[i]);
    assert normalized == PART;
    assert PART[..19] == "load_artifact/part-";
    assert PART[|PART| - 5..] == ".json";
  }

  function Texts(payloads: seq<Payload>): seq<Line>
  {
    if payloads == [] then [] else Texts(payloads[..|payloads| - 1]) + [Text(payloads[|payloads| - 1])]
  }

  /** A load whose manifest lists one file with these lines, under this idempotency key and run id. */
  function OneFile(key: string, runId: string, goldRunId: string, payloads: seq<Payload>): LoadCall
  {
    var artifact := Artifact(PART, "", 0, Absent);
    var manifest := Manifest(key, true, goldRunId, "", |payloads|, |payloads|, Some(0), [artifact]);
    LoadCall(manifest, map[PART := ArtifactFile(0, "", Texts(payloads))], |payloads|, runId, NoFault)
  }

  lemma {:induction false} TextsAreNotBlank(payloads: seq<Payload>)
    ensures NonBlank(Texts(payloads)) == payloads
  {
    if payloads != [] {
      var n := |payloads| - 1;
      TextsAreNotBlank(payloads[..n]);
      assert (Texts(payloads[..n]) + [Text(payloads[n])])[..|Texts(payloads[..n])|] == Texts(payloads[..n]);
      assert payloads == payloads[..n] + [payloads[n]];
    }
  }

  lemma OneFileAdmitted(key: string, runId: string, goldRunId: string, payloads: seq<Payload>)
    ensures var call := OneFile(key, runId, goldRunId, payloads);
      && AdmissionError(call.manifest, call.store, call.expectedRows).None?
      && LoadArtifacts(call.manifest.artifacts) == call.manifest.artifacts
  {
    var call := OneFile(key, runId, goldRunId, payloads);
    var artifact := call.manifest.artifacts[0];
    PartIsLoadArtifact();
    assert LoadArtifacts(call.manifest.artifacts[1..]) == [];
    assert ArtifactFault(artifact, call.store).None?;
    assert FirstArtifactFault(call.manifest.artifacts, call.store).None?;
  }

  lemma OneFileStages(key: string, runId: string, goldRunId: string, payloads: seq<Payload>)
    ensures PayloadsOfCall(OneFile(key, runId, goldRunId, payloads)) == payloads
  {
    var call := OneFile(key, runId, goldRunId, payloads);
    var artifacts := call.manifest.artifacts;
    OneFileAdmitted(key, runId, goldRunId, payloads);
    assert artifacts[..0] == [] && TextOrder.SortByText(artifacts[..0], PathOf) == [];
    assert SortedLoadArtifacts(call.manifest) == artifacts;
    assert PayloadsOf(artifacts[..0], call.store) == [];
    TextsAreNotBlank(payloads);
  }

  /** The run id and the key are new to the database. */
  ghost predicate Unused(t: Tables, key: string, runId: string)
  {
    && key !in t.loadRuns && (forall k :: k in t.loadRuns ==> t.loadRuns[k].loadRunId != runId)
    && ArtifactKey(runId, PART) !in t.artifacts
  }

  /** The lines are castable, of the manifest's gold run, and against no row that is there. */
  ghost predicate Clean(t: Tables, goldRunId: string, payloads: seq<Payload>)
  {
    && AllCastable(payloads)
    && forall i :: 0 <= i < |payloads| ==>
      && payloads[i].columns.value.goldRunId == goldRunId
      && (payloads[i].eventId.value in t.events ==> t.events[payloads[i].eventId.value].contentHash == payloads[i].contentHash.value)
  }

  lemma OneFilePromotes(t: Tables, key: string, runId: string, goldRunId: string, payloads: seq<Payload>)
    requires Unused(t, key, runId) && Clean(t, goldRunId, payloads)
    ensures var call := OneFile(key, runId, goldRunId, payloads);
      && Promotes(t, call) && Governed(call) && PayloadsOfCall(call) == payloads
      && LoadOutcome(t, call).0.events == InsertIgnore(t.events, payloads)
  {
    var call := OneFile(key, runId, goldRunId, payloads);
    OneFileAdmitted(key, runId, goldRunId, payloads);
    OneFileStages(key, runId, goldRunId, payloads);
    OneFileRecordable(t, key, runId, goldRunId, payloads);
    assert Servable(t, call, payloads);
    PromotesExactly(t, call);
    var staged := PromotedEvents(t, call);
  }

  lemma OneFileRecordable(t: Tables, key: string, runId: string, goldRunId: string, payloads: seq<Payload>)
    requires Unused(t, key, runId)
    ensures Fresh(t, OneFile(key, runId, goldRunId, payloads))
  {
    var call := OneFile(key, runId, goldRunId, payloads);
    OneFileAdmitted(key, runId, goldRunId, payloads);
    PartIsLoadArtifact();
    assert ArtifactRows(call.manifest.artifacts[0], call.manifest, call.expectedRows) == Count(|payloads|);
  }

  // ----- one load -----

  /** A line for an event. */
  function LineOf(id: EventId, hash: string, columns: Columns): Payload
  {
    Json(Some(id), Some(hash), Some(columns))
  }

  lemma TwoLines(events: EventTable, a: Payload, b: Payload)
    requires Castable(a) && Castable(b)
    ensures AllCastable([a]) && AllCastable([a, b])
    ensures InsertIgnore(events, [a]) == if a.eventId.value in events then events else events[a.eventId.value := RowOf(a)]
    ensures InsertIgnore(events, [a, b]) == var first := InsertIgnore(events, [a]);
      if b.eventId.value in first then first else first[b.eventId.value := RowOf(b)]
  {
    assert [a][..0] == [] && [a, b][..1] == [a];
  }

  lemma RunOne(t: Tables, call: LoadCall)
    ensures RunLoads(t, [call]) == LoadOutcome(t, call).0
  {
    assert [call][..0] == [] && RunLoads(t, []) == t;
  }

  lemma RunTwo(t: Tables, one: LoadCall, two: LoadCall)
    ensures RunLoads(t, [one, two]) == LoadOutcome(RunLoads(t, [one]), two).0
  {
    assert [one, two][..1] == [one];
  }

  /** The database after one load of these lines into the empty database. */
  lemma OneLoad(goldRunId: string, lines: seq<Payload>)
    requires Clean(EMPTY_DATABASE, goldRunId, lines)
    ensures var call := OneFile("key", "run", goldRunId, lines);
      var t := RunLoads(EMPTY_DATABASE, [call]);
      Governed(call) && LoadOutcome(EMPTY_DATABASE, call).1.Ok? && SummariesMatch(t) && t.events == InsertIgnore(map[], lines)
  {
    var call := OneFile("key", "run", goldRunId, lines);
    OneFilePromotes(EMPTY_DATABASE, "key", "run", goldRunId, lines);
    RunOne(EMPTY_DATABASE, call);
    EmptyDatabaseMatches();
    SummariesTrackDetail(EMPTY_DATABASE, [call]);
  }

  /** Two lines with one id and different content load without complaint, and the second is not served. */
  lemma SecondContentIsLost(id: EventId, columns: Columns, hash: string, other: string)
    requires PassesChecks(columns) && hash != other
    ensures var lines := [LineOf(id, hash, columns), LineOf(id, other, columns)];
      var call := OneFile("key", "run", columns.goldRunId, lines);
      && LoadOutcome(EMPTY_DATABASE, call).1.Ok?
      && RunLoads(EMPTY_DATABASE, [call]).events == map[id := Row(columns, hash)]
  {
    var a, b := LineOf(id, hash, columns), LineOf(id, other, columns);
    TwoLines(map[], a, b);
    OneLoad(columns.goldRunId, [a, b]);
  }

  /** A lineage observed twice in one load: the fast path gives the earlier time as its last observation, the scan the later one. */
  lemma LastObservationTooEarly(a: EventId, b: EventId, c: Columns, d: Columns)
    requires a != b && PassesChecks(c) && PassesChecks(d) && c.eventTime < d.eventTime
    requires c.goldRunId == d.goldRunId && c.lineageRootId == d.lineageRootId
    ensures var call := OneFile("key", "run", c.goldRunId, [LineOf(a, "", c), LineOf(b, "", d)]);
      var t := RunLoads(EMPTY_DATABASE, [call]);
      Governed(call) && SummariesMatch(t) && Fast(t).lastObservation != Scan(t.events).lastObservation
  {
    var x, y := LineOf(a, "", c), LineOf(b, "", d);
    TwoLines(map[], x, y);
    OneLoad(c.goldRunId, [x, y]);
    TwoTimesInOneLineage(RunLoads(EMPTY_DATABASE, [OneFile("key", "run", c.goldRunId, [x, y])]), a, b);
  }

  lemma TwoTimesInOneLineage(t: Tables, a: EventId, b: EventId)
    requires SummariesMatch(t) && t.events.Keys == {a, b}
    requires LineageKeyOf(t.events[a]) == LineageKeyOf(t.events[b]) && t.events[a].columns.eventTime < t.events[b].columns.eventTime
    ensures Fast(t).lastObservation != Scan(t.events).lastObservation
  {
    NoneOnlyAtLatest(t.events, a, b);
    LastTimesDiffer(t);
  }

  /** Some row whose whole lineage was observed at the latest time. */
  ghost predicate AnyOnlyAtLatest(t: EventTable)
  {
    exists i :: i in t && SeenOnlyAtLatest(t, i)
  }

  lemma LastTimesDiffer(t: Tables)
    requires SummariesMatch(t) && t.events != map[] && !AnyOnlyAtLatest(t.events)
    ensures Fast(t).lastObservation != Scan(t.events).lastObservation
  {
    TimesAgree(t);
  }

  lemma NoneOnlyAtLatest(t: EventTable, a: EventId, b: EventId)
    requires t.Keys == {a, b}
    requires LineageKeyOf(t[a]) == LineageKeyOf(t[b]) && t[a].columns.eventTime < t[b].columns.eventTime
    ensures t != map[] && !AnyOnlyAtLatest(t)
  {
    assert a in t;
    if AnyOnlyAtLatest(t) {
      var i :| i in t && SeenOnlyAtLatest(t, i);
      NotOnlyAtLatest(t, a, b, i);
    }
  }

  lemma NotOnlyAtLatest(t: EventTable, a: EventId, b: EventId, i: EventId)
    requires t.Keys == {a, b} && i in t
    requires LineageKeyOf(t[a]) == LineageKeyOf(t[b]) && t[a].columns.eventTime < t[b].columns.eventTime
    ensures !SeenOnlyAtLatest(t, i)
  {
    assert !IsLatest(t, t[a].columns.eventTime);
    assert LineageKeyOf(t[a]) == LineageKeyOf(t[i]);
  }

  // ----- two loads -----

  function FirstLoad(line: Payload, goldRunId: string): LoadCall { OneFile("key 1", "run 1", goldRunId, [line]) }

  function SecondLoad(line: Payload, goldRunId: string): LoadCall { OneFile("key 2", "run 2", goldRunId, [line]) }

  lemma FirstLoadLeaves(a: Payload, goldRunId: string)
    requires Castable(a) && a.columns.value.goldRunId == goldRunId
    ensures var t := RunLoads(EMPTY_DATABASE, [FirstLoad(a, goldRunId)]);
      && Governed(FirstLoad(a, goldRunId)) && t.events == map[a.eventId.value := RowOf(a)] && Unused(t, "key 2", "run 2")
  {
    var call := FirstLoad(a, goldRunId);
    TwoLines(map[], a, a);
    OneFilePromotes(EMPTY_DATABASE, "key 1", "run 1", goldRunId, [a]);
    RunOne(EMPTY_DATABASE, call);
    FirstRecords(call);
  }

  /** The records one load leaves are its own. */
  lemma FirstRecords(call: LoadCall)
    requires Promotes(EMPTY_DATABASE, call) && call.manifest.sha == "key 1" && call.loadRunId == "run 1" && |call.manifest.artifacts| == 1
    ensures Unused(LoadOutcome(EMPTY_DATABASE, call).0, "key 2", "run 2")
  {
    UnrecordedDoesNotPromote(EMPTY_DATABASE, call);
    OutcomeShape(EMPTY_DATABASE, call);
    OneArtifact(call);
    NamesDiffer();
    var recorded := Recorded(EMPTY_DATABASE, call);
    assert recorded.loadRuns.Keys == {"key 1"};
    PromotedRecords(recorded, call, StagedPayloads(call.manifest, call.store));
  }

  lemma NamesDiffer()
    ensures "key 1" != "key 2" && "run 1" != "run 2"
  {
    assert "key 1"[4] != "key 2"[4] && "run 1"[4] != "run 2"[4];
  }

  lemma PromotedRecords(t: Tables, call: LoadCall, staged: seq<Payload>)
    requires AllCastable(staged)
    ensures var after := Promoted(t, call, staged);
      && after.artifacts == t.artifacts
      && (forall k :: k in after.loadRuns ==> k in t.loadRuns || k == call.manifest.sha)
      && (forall k :: k in after.loadRuns && k != call.manifest.sha ==> after.loadRuns[k] == t.loadRuns[k])
      && call.manifest.sha in after.loadRuns && after.loadRuns[call.manifest.sha].loadRunId == call.loadRunId
  {
  }

  lemma OneArtifact(call: LoadCall)
    requires RecordError(EMPTY_DATABASE, call).None? && |call.manifest.artifacts| == 1
    ensures Recorded(EMPTY_DATABASE, call).artifacts.Keys == {ArtifactKey(call.loadRunId, call.manifest.artifacts[0].path)}
  {
    var a := call.manifest.artifacts[0];
    var rows := ArtifactRows(a, call.manifest, call.expectedRows);
    var one := map[ArtifactKey(call.loadRunId, a.path) := ArtifactRecord(a.sha, a.bytes, rows.n)];
    assert call.manifest.artifacts[1..] == [] && ArtifactRecords(one, call, []) == one;
    assert EMPTY_DATABASE.artifacts == map[] && one == map[][ArtifactKey(call.loadRunId, a.path) := ArtifactRecord(a.sha, a.bytes, rows.n)];
    assert ArtifactRecords(map[], call, call.manifest.artifacts) == ArtifactRecords(one, call, call.manifest.artifacts[1..]);
  }

  /** The database after two loads of one line each, the second not against the first. */
  lemma TwoLoads(a: Payload, g: string, b: Payload, h: string)
    requires Castable(a) && Castable(b) && a.columns.value.goldRunId == g && b.columns.value.goldRunId == h
    requires a.eventId == b.eventId ==> a.contentHash == b.contentHash
    ensures AllCastable([b]) && Governed(FirstLoad(a, g)) && Governed(SecondLoad(b, h))
    ensures Promotes(RunLoads(EMPTY_DATABASE, [FirstLoad(a, g)]), SecondLoad(b, h))
    ensures var t := RunLoads(EMPTY_DATABASE, [FirstLoad(a, g), SecondLoad(b, h)]);
      SummariesMatch(t) && t.events == InsertIgnore(map[a.eventId.value := RowOf(a)], [b])
  {
    var one, two := FirstLoad(a, g), SecondLoad(b, h);
    var before := RunLoads(EMPTY_DATABASE, [one]);
    FirstLoadLeaves(a, g);
    TwoLines(before.events, b, b);
    OneFilePromotes(before, "key 2", "run 2", h, [b]);
    RunTwo(EMPTY_DATABASE, one, two);
    SummariesAfter(one, two);
  }

  lemma SummariesAfter(one: LoadCall, two: LoadCall)
    requires Governed(one) && Governed(two)
    ensures SummariesMatch(RunLoads(EMPTY_DATABASE, [one, two]))
  {
    EmptyDatabaseMatches();
    SummariesTrackDetail(EMPTY_DATABASE, [one, two]);
  }

  /**
   * A manifest whose one row is already present under another gold run loads, inserting nothing, and is refused when it is
   * loaded again.
   */
  lemma ReloadRefused(id: EventId, hash: string, first: Columns, second: Columns)
    requires PassesChecks(first) && PassesChecks(second) && first.goldRunId != second.goldRunId
    ensures var one := FirstLoad(LineOf(id, hash, first), first.goldRunId);
      var two := SecondLoad(LineOf(id, hash, second), second.goldRunId);
      var t := RunLoads(EMPTY_DATABASE, [one, two]);
      && Governed(one) && Governed(two)
      && LoadOutcome(RunLoads(EMPTY_DATABASE, [one]), two).1.Ok?
      && LoadOutcome(t, two).1.Err? && LoadOutcome(t, two).0 == t
  {
    var a, b := LineOf(id, hash, first), LineOf(id, hash, second);
    var one, two := FirstLoad(a, first.goldRunId), SecondLoad(b, second.goldRunId);
    TwoLoads(a, first.goldRunId, b, second.goldRunId);
    RunTwo(EMPTY_DATABASE, one, two);
    FirstLoadLeaves(a, first.goldRunId);
    TwoLines(RunLoads(EMPTY_DATABASE, [one]).events, b, b);
    NothingInserted(RunLoads(EMPTY_DATABASE, [one]), two, second.goldRunId);
  }

  lemma NothingInserted(t: Tables, call: LoadCall, goldRunId: string)
    requires Promotes(t, call) && Governed(call) && call.manifest.goldRunId == goldRunId && call.expectedRows > 0
    requires LoadOutcome(t, call).0.events == t.events && forall i :: i in t.events ==> GoldOf(t.events[i]) != goldRunId
    ensures var after := LoadOutcome(t, call).0; LoadOutcome(after, call).1.Err? && LoadOutcome(after, call).0 == after
  {
    var staged := PromotedEvents(t, call);
    RowCountIsGrowth(t.events, staged);
    assert RunRows(t.events, goldRunId) == map[];
    ReloadExact(t, call, [], call);
    assert RunLoads(LoadOutcome(t, call).0, []) == LoadOutcome(t, call).0;
  }

  /** One detection loaded under two gold runs is counted twice by the fast path and once by the scan. */
  lemma TwoGoldRunsCountADetectionTwice(a: EventId, b: EventId, c: Columns, d: Columns)
    requires a != b && PassesChecks(c) && PassesChecks(d) && c.goldRunId != d.goldRunId && c.detectionId == d.detectionId
    ensures var one, two := FirstLoad(LineOf(a, "", c), c.goldRunId), SecondLoad(LineOf(b, "", d), d.goldRunId);
      var t := RunLoads(EMPTY_DATABASE, [one, two]);
      && Governed(one) && Governed(two) && SummariesMatch(t)
      && Fast(t).uniqueDetections == 2 && Scan(t.events).uniqueDetections == 1
  {
    TwoLoads(LineOf(a, "", c), c.goldRunId, LineOf(b, "", d), d.goldRunId);
    var t := RunLoads(EMPTY_DATABASE, [FirstLoad(LineOf(a, "", c), c.goldRunId), SecondLoad(LineOf(b, "", d), d.goldRunId)]);
    TwoLines(map[a := Row(c, "")], LineOf(b, "", d), LineOf(b, "", d));
    TwoGroupsOneDetection(t.events, a, b);
    LineageCount(t);
  }

  lemma LineageCount(t: Tables)
    requires SummariesMatch(t)
    ensures Fast(t).uniqueDetections == |GroupKeys(t.events, LineageKeyOf)|
  {
    assert t.lineage.Keys == GroupKeys(t.events, LineageKeyOf) && |t.lineage| == |t.lineage.Keys|;
  }

  lemma TwoGroupsOneDetection(t: EventTable, a: EventId, b: EventId)
    requires t.Keys == {a, b} && a != b
    requires GoldOf(t[a]) != GoldOf(t[b]) && t[a].columns.detectionId == t[b].columns.detectionId
    ensures |GroupKeys(t, LineageKeyOf)| == 2 && |Detections(t)| == 1
  {
    var one, two := LineageKeyOf(t[a]), LineageKeyOf(t[b]);
    assert one != two;
    assert GroupKeys(t, LineageKeyOf) == {one, two} by {
      assert forall k :: k in GroupKeys(t, LineageKeyOf) <==> k == LineageKeyOf(t[a]) || k == LineageKeyOf(t[b]);
    }
    assert Detections(t) == {t[a].columns.detectionId};
  }
}
