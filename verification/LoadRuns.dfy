/** What every sequence of loads keeps: immutable rows, exact summaries, all-or-nothing serving changes, idempotency. */
module LoadRuns {
  import opened Common
  import opened Relational
  import opened ServingTables
  import opened PostgresLoader

  /** The committed database after a sequence of loader commands. */
  function RunLoads(t: Tables, calls: seq<LoadCall>): Tables
  {
    if calls == [] then t else LoadOutcome(RunLoads(t, calls[..|calls| - 1]), calls[|calls| - 1]).0
  }

  /** The load that reaches its final commit, as opposed to an error or an idempotent no-op. */
  ghost predicate Promotes(t: Tables, call: LoadCall)
  {
    var r := LoadOutcome(t, call).1;
    r.Ok? && !r.value.idempotentNoop
  }

  /** Every payload line carries the gold run id of its manifest, as the Gold build stamps it. */
  ghost predicate Governed(call: LoadCall)
  {
    FirstArtifactFault(call.manifest.artifacts, call.store).None? ==>
      var staged := StagedPayloads(call.manifest, call.store);
      forall i :: 0 <= i < |staged| && Castable(staged[i]) ==> staged[i].columns.value.goldRunId == call.manifest.goldRunId
  }

  // ----- the shape of an outcome -----

  /** A load either changes nothing, or only records itself, or commits the whole serving transaction. */
  lemma OutcomeShape(t: Tables, call: LoadCall)
    ensures var (after, r) := LoadOutcome(t, call);
      if Promotes(t, call) then
        && AdmissionError(call.manifest, call.store, call.expectedRows).None?
        && RecordError(t, call).None?
        && var staged := StagedPayloads(call.manifest, call.store);
        && AllCastable(staged)
        && TransactionError(Recorded(t, call), staged, call.expectedRows).None?
        && after == Promoted(Recorded(t, call), call, staged)
        && r == Ok(ReportOf(t.events, call, staged))
      else
        SameServing(t, after)
  {
    if Runs(t, call) { RanShape(t, call); }
  }

  /** The load gets past its preparations and runs its serving transaction. */
  ghost predicate Runs(t: Tables, call: LoadCall)
  {
    && AdmissionError(call.manifest, call.store, call.expectedRows).None?
    && !(call.manifest.sha in t.loadRuns && t.loadRuns[call.manifest.sha].status == SUCCEEDED)
    && RecordError(t, call).None?
  }

  lemma RanShape(t: Tables, call: LoadCall)
    requires Runs(t, call)
    ensures var (after, r) := LoadOutcome(t, call);
      if r.Ok? then
        && !r.value.idempotentNoop
        && var staged := StagedPayloads(call.manifest, call.store);
        && AllCastable(staged)
        && TransactionError(Recorded(t, call), staged, call.expectedRows).None?
        && after == Promoted(Recorded(t, call), call, staged)
        && r == Ok(ReportOf(t.events, call, staged))
      else
        SameServing(t, after)
  {
    var recorded := Recorded(t, call);
    assert SameServing(t, recorded);
    assert LoadOutcome(t, call) == TransactionOutcome(recorded, call);
    TransactionShape(recorded, call);
  }

  lemma TransactionShape(recorded: Tables, call: LoadCall)
    requires call.manifest.sha in recorded.loadRuns
    requires FirstArtifactFault(call.manifest.artifacts, call.store).None?
    ensures var (after, r) := TransactionOutcome(recorded, call);
      if r.Ok? then
        var staged := StagedPayloads(call.manifest, call.store);
        && AllCastable(staged)
        && TransactionError(recorded, staged, call.expectedRows).None?
        && after == Promoted(recorded, call, staged)
        && r == Ok(ReportOf(recorded.events, call, staged))
      else
        SameServing(recorded, after)
  {
    FailedKeepsServing(recorded, call.manifest.sha);
  }

  lemma FailedKeepsServing(t: Tables, key: string)
    requires key in t.loadRuns
    ensures SameServing(t, Failed(t, key))
  {
  }

  /** Serving changes and the SUCCEEDED record are atomic: a load that fails leaves every serving table as it was. */
  lemma FailedLoadChangesNoServingTable(t: Tables, call: LoadCall)
    ensures LoadOutcome(t, call).1.Err? ==> SameServing(t, LoadOutcome(t, call).0)
  {
    OutcomeShape(t, call);
  }

  // ----- admission -----

  /** A manifest is admitted exactly when its files match their size and checksum and its row counts reconcile. */
  lemma AdmissionExact(m: Manifest, store: Store, expectedRows: int)
    ensures AdmissionError(m, store, expectedRows).None? <==>
      && m.hasRequiredFields
      && m.expectedRows == m.loadArtifactRows == expectedRows
      && (forall a :: a in m.artifacts ==> a.path in store && store[a.path].bytes == a.bytes && store[a.path].sha == a.sha)
      && var loads := LoadArtifacts(m.artifacts);
      && loads != []
      && ((forall a :: a in loads ==> a.rows.Absent?)
          || ((forall i :: 0 <= i < |loads| ==> ValidCount(loads[i].rows)) && SumDeclared(loads) == expectedRows))
  {
    assert forall a :: a in m.artifacts ==>
      (ArtifactFault(a, store).None? <==> a.path in store && store[a.path].bytes == a.bytes && store[a.path].sha == a.sha);
  }

  // ----- which loads promote -----

  /** No two of the artifacts have one path. */
  ghost predicate DistinctPaths(artifacts: seq<Artifact>)
  {
    forall i, j :: 0 <= i < j < |artifacts| ==> artifacts[i].path != artifacts[j].path
  }

  /** The artifact records can be written: row counts are not negative, and no (run, path) key is there twice or already. */
  ghost predicate Recordable(records: map<ArtifactKey, ArtifactRecord>, call: LoadCall, pending: seq<Artifact>)
  {
    && DistinctPaths(pending)
    && forall i :: 0 <= i < |pending| ==>
      && ValidCount(ArtifactRows(pending[i], call.manifest, call.expectedRows))
      && ArtifactKey(call.loadRunId, pending[i].path) !in records
  }

  lemma {:induction false} RecordableExactly(records: map<ArtifactKey, ArtifactRecord>, call: LoadCall, pending: seq<Artifact>)
    ensures ArtifactRecordError(records, call, pending).None? <==> Recordable(records, call, pending)
    decreases |pending|
  {
    if pending != [] {
      var a, rest := pending[0], pending[1..];
      var rows := ArtifactRows(a, call.manifest, call.expectedRows);
      if ValidCount(rows) && ArtifactKey(call.loadRunId, a.path) !in records {
        var longer := records[ArtifactKey(call.loadRunId, a.path) := ArtifactRecord(a.sha, a.bytes, rows.n)];
        RecordableExactly(longer, call, rest);
        RecordableStep(records, longer, call, pending);
      }
    }
  }

  lemma RecordableStep(records: map<ArtifactKey, ArtifactRecord>, longer: map<ArtifactKey, ArtifactRecord>, call: LoadCall, pending: seq<Artifact>)
    requires pending != [] && ValidCount(ArtifactRows(pending[0], call.manifest, call.expectedRows))
    requires ArtifactKey(call.loadRunId, pending[0].path) !in records
    requires longer.Keys == records.Keys + {ArtifactKey(call.loadRunId, pending[0].path)}
    ensures Recordable(records, call, pending) <==> Recordable(longer, call, pending[1..])
  {
    var rest := pending[1..];
    if Recordable(longer, call, rest) {
      forall i, j | 0 <= i < j < |pending| ensures pending[i].path != pending[j].path {
        assert pending[j] == rest[j - 1];
        if i > 0 { assert pending[i] == rest[i - 1]; }
      }
      forall i | 0 <= i < |pending|
        ensures ValidCount(ArtifactRows(pending[i], call.manifest, call.expectedRows)) && ArtifactKey(call.loadRunId, pending[i].path) !in records
      {
        if i > 0 { assert pending[i] == rest[i - 1]; }
      }
    }
    if Recordable(records, call, pending) {
      forall i, j | 0 <= i < j < |rest| ensures rest[i].path != rest[j].path {
        assert pending[i + 1].path != pending[j + 1].path;
      }
      forall i | 0 <= i < |rest|
        ensures ValidCount(ArtifactRows(rest[i], call.manifest, call.expectedRows)) && ArtifactKey(call.loadRunId, rest[i].path) !in longer
      {
        assert rest[i] == pending[i + 1] && pending[0].path != pending[i + 1].path;
      }
    }
  }

  /** Neither the manifest's idempotency key nor the new run id is in use, and the RUNNING record can be written. */
  ghost predicate Fresh(t: Tables, call: LoadCall)
  {
    && call.manifest.completedAt.Some? && call.expectedRows >= 0
    && call.manifest.sha !in t.loadRuns && (forall k :: k in t.loadRuns ==> t.loadRuns[k].loadRunId != call.loadRunId)
    && Recordable(t.artifacts, call, call.manifest.artifacts)
  }

  /** The staged lines can be served: as many as the gate, all castable, none against a row with its id, none of an unknown gold run. */
  ghost predicate Servable(t: Tables, call: LoadCall, staged: seq<Payload>)
  {
    && |staged| == call.expectedRows && AllCastable(staged)
    && (forall i :: 0 <= i < |staged| && staged[i].eventId.value in t.events ==>
          t.events[staged[i].eventId.value].contentHash == staged[i].contentHash.value)
    && (forall i, k :: k !in t.events && Introduces(staged, i, k) ==>
          staged[i].columns.value.goldRunId in t.goldRuns || staged[i].columns.value.goldRunId == call.manifest.goldRunId)
  }

  lemma RecordsExactly(t: Tables, call: LoadCall)
    ensures RecordError(t, call).None? <==> Fresh(t, call) && !call.fault.LostBeforeRecord?
  {
    RecordableExactly(t.artifacts, call, call.manifest.artifacts);
  }

  lemma ForeignKeysExactly(events: EventTable, staged: seq<Payload>, goldRuns: set<string>)
    requires AllCastable(staged)
    ensures ForeignKeyBroken(events, InsertIgnore(events, staged), goldRuns) <==>
      exists i, k :: k !in events && Introduces(staged, i, k) && staged[i].columns.value.goldRunId !in goldRuns
  {
    InsertIgnoreExact(events, staged);
    var after := InsertIgnore(events, staged);
    if k :| k in after && k !in events && GoldOf(after[k]) !in goldRuns {
      var i := FirstLine(staged, k);
      assert Introduces(staged, i, k) && after[k] == RowOf(staged[i]);
    }
    if i, k :| k !in events && Introduces(staged, i, k) && staged[i].columns.value.goldRunId !in goldRuns {
      assert k in StagedIds(staged) && after[k] == RowOf(staged[i]);
    }
  }

  lemma NoConflictsExactly(events: EventTable, staged: seq<Payload>)
    requires AllCastable(staged)
    ensures Conflicts(events, staged) == {} <==>
      forall i :: 0 <= i < |staged| && staged[i].eventId.value in events ==> events[staged[i].eventId.value].contentHash == staged[i].contentHash.value
  {
    if Conflicts(events, staged) == {} {
      forall i | 0 <= i < |staged| && staged[i].eventId.value in events
        ensures events[staged[i].eventId.value].contentHash == staged[i].contentHash.value
      {
        assert i !in Conflicts(events, staged);
      }
    }
  }

  lemma ServableExactly(t: Tables, call: LoadCall, staged: seq<Payload>)
    requires RecordError(t, call).None?
    ensures TransactionError(Recorded(t, call), staged, call.expectedRows).None? <==> Servable(t, call, staged)
  {
    var recorded := Recorded(t, call);
    assert recorded.events == t.events && recorded.goldRuns.Keys == t.goldRuns.Keys + {call.manifest.goldRunId};
    if AllCastable(staged) {
      NoConflictsExactly(t.events, staged);
      ForeignKeysExactly(t.events, staged, recorded.goldRuns.Keys);
      assert NotJson !in staged;
    }
  }

  /**
   * A load promotes exactly when its manifest is admitted, its key and run id are unused, no outside failure strikes, and its
   * lines can be served.
   */
  lemma PromotesExactly(t: Tables, call: LoadCall)
    ensures Promotes(t, call) <==>
      && AdmissionError(call.manifest, call.store, call.expectedRows).None?
      && Fresh(t, call) && call.fault == NoFault
      && Servable(t, call, PayloadsOfCall(call))
  {
    RecordsExactly(t, call);
    if AdmissionError(call.manifest, call.store, call.expectedRows).None? && RecordError(t, call).None? {
      ServableExactly(t, call, PayloadsOfCall(call));
    }
    UnrecordedDoesNotPromote(t, call);
  }

  lemma UnrecordedDoesNotPromote(t: Tables, call: LoadCall)
    ensures Promotes(t, call) <==>
      && AdmissionError(call.manifest, call.store, call.expectedRows).None? && RecordError(t, call).None?
      && !call.fault.LostInTransaction? && !call.fault.StatementFails?
      && TransactionError(Recorded(t, call), PayloadsOfCall(call), call.expectedRows).None?
  {
    if AdmissionError(call.manifest, call.store, call.expectedRows).None? && RecordError(t, call).None? {
      assert LoadOutcome(t, call) == TransactionOutcome(Recorded(t, call), call);
    }
  }

  // ----- the insert -----

  /** The staged line that introduces event id k. */
  ghost predicate Introduces(staged: seq<Payload>, i: int, k: EventId)
    requires AllCastable(staged)
  {
    && 0 <= i < |staged|
    && staged[i].eventId.value == k
    && forall j :: 0 <= j < i ==> staged[j].eventId.value != k
  }

  lemma LastStagedId(staged: seq<Payload>)
    requires AllCastable(staged) && staged != []
    ensures StagedIds(staged) == StagedIds(staged[..|staged| - 1]) + {staged[|staged| - 1].eventId.value}
  {
    assert staged == staged[..|staged| - 1] + [staged[|staged| - 1]];
  }

  lemma IntroducedEarlier(staged: seq<Payload>, i: int, k: EventId)
    requires AllCastable(staged) && Introduces(staged, i, k) && i < |staged| - 1
    ensures Introduces(staged[..|staged| - 1], i, k) && k in StagedIds(staged[..|staged| - 1])
  {
    assert staged[..|staged| - 1][i] == staged[i];
  }

  lemma IntroducedLast(staged: seq<Payload>, k: EventId)
    requires AllCastable(staged) && Introduces(staged, |staged| - 1, k)
    ensures k !in StagedIds(staged[..|staged| - 1])
  {
  }

  /** Insert-or-ignore keeps every row, adds exactly the new staged ids, each with the content of its first line. */
  lemma {:induction false} InsertIgnoreExact(events: EventTable, staged: seq<Payload>)
    requires AllCastable(staged)
    ensures InsertIgnore(events, staged).Keys == events.Keys + StagedIds(staged)
    ensures OnlyGrew(events, InsertIgnore(events, staged))
    ensures forall k, i :: k !in events && Introduces(staged, i, k) ==> InsertIgnore(events, staged)[k] == RowOf(staged[i])
  {
    if staged != [] {
      var n := |staged| - 1;
      var front := staged[..n];
      InsertIgnoreExact(events, front);
      LastStagedId(staged);
      forall k, i | k !in events && Introduces(staged, i, k) ensures InsertIgnore(events, staged)[k] == RowOf(staged[i]) {
        if i < n { IntroducedEarlier(staged, i, k); } else { IntroducedLast(staged, k); }
      }
    }
  }

  lemma {:induction false} FirstLine(staged: seq<Payload>, k: EventId) returns (i: int)
    requires AllCastable(staged)
    requires k in StagedIds(staged)
    ensures Introduces(staged, i, k)
  {
    var n := |staged| - 1;
    if k in StagedIds(staged[..n]) {
      i := FirstLine(staged[..n], k);
    } else {
      i := n;
      assert forall j :: 0 <= j < n ==> staged[..n][j] == staged[j];
    }
  }

  /** What a successful load did to the detail table. */
  lemma PromotedEvents(t: Tables, call: LoadCall) returns (staged: seq<Payload>)
    requires Promotes(t, call)
    ensures FirstArtifactFault(call.manifest.artifacts, call.store).None?
    ensures staged == StagedPayloads(call.manifest, call.store)
    ensures AllCastable(staged) && |staged| == call.expectedRows && Conflicts(t.events, staged) == {}
    ensures LoadOutcome(t, call).0.events == InsertIgnore(t.events, staged)
    ensures LoadOutcome(t, call).1 == Ok(ReportOf(t.events, call, staged))
  {
    OutcomeShape(t, call);
    staged := StagedPayloads(call.manifest, call.store);
  }

  // ----- rows are immutable -----

  lemma LoadOnlyGrows(t: Tables, call: LoadCall)
    ensures OnlyGrew(t.events, LoadOutcome(t, call).0.events)
  {
    OutcomeShape(t, call);
    if Promotes(t, call) {
      var staged := PromotedEvents(t, call);
      InsertIgnoreExact(t.events, staged);
    }
  }

  /** Over every run of loads, a row of event_detail once inserted never changes and never disappears. */
  lemma {:induction false} RowsAreImmutable(t: Tables, calls: seq<LoadCall>)
    ensures OnlyGrew(t.events, RunLoads(t, calls).events)
  {
    if calls != [] {
      RowsAreImmutable(t, calls[..|calls| - 1]);
      LoadOnlyGrows(RunLoads(t, calls[..|calls| - 1]), calls[|calls| - 1]);
    }
  }

  // ----- what a successful load guarantees -----

  /** No two staged lines give one event id two different contents. */
  ghost predicate OneContentPerId(staged: seq<Payload>)
    requires AllCastable(staged)
  {
    forall i, j :: 0 <= i < |staged| && 0 <= j < |staged| && staged[i].eventId == staged[j].eventId ==>
      staged[i].contentHash == staged[j].contentHash
  }

  ghost predicate Serves(events: EventTable, p: Payload)
    requires Castable(p)
  {
    p.eventId.value in events && events[p.eventId.value].contentHash == p.contentHash.value
  }

  lemma InsertServesPayloads(events: EventTable, staged: seq<Payload>)
    requires AllCastable(staged) && Conflicts(events, staged) == {}
    ensures forall i :: 0 <= i < |staged| ==> staged[i].eventId.value in InsertIgnore(events, staged)
    ensures (forall i :: 0 <= i < |staged| ==> Serves(InsertIgnore(events, staged), staged[i])) <==> OneContentPerId(staged)
  {
    var served := InsertIgnore(events, staged);
    InsertIgnoreExact(events, staged);
    forall i | 0 <= i < |staged|
      ensures staged[i].eventId.value in served
      ensures OneContentPerId(staged) ==> Serves(served, staged[i])
    {
      var k := staged[i].eventId.value;
      assert k in StagedIds(staged);
      if k in events {
        assert i !in Conflicts(events, staged);
      } else {
        var first := FirstLine(staged, k);
        assert served[k] == RowOf(staged[first]);
      }
    }
    if forall i :: 0 <= i < |staged| ==> Serves(served, staged[i]) {
      forall i, j | 0 <= i < |staged| && 0 <= j < |staged| && staged[i].eventId == staged[j].eventId
        ensures staged[i].contentHash == staged[j].contentHash
      {
        assert Serves(served, staged[i]) && Serves(served, staged[j]);
      }
    }
  }

  /**
   * After a successful load every staged id is served. It is served with the content hash of its own line, for every
   * line, exactly when the staging area itself gives each id one content: a second line with other content is ignored.
   */
  lemma SuccessfulLoadServesItsPayloads(t: Tables, call: LoadCall)
    requires Promotes(t, call)
    ensures AllCastable(PayloadsOfCall(call))
    ensures var staged, served := PayloadsOfCall(call), LoadOutcome(t, call).0.events;
      && (forall i :: 0 <= i < |staged| ==> staged[i].eventId.value in served)
      && ((forall i :: 0 <= i < |staged| ==> Serves(served, staged[i])) <==> OneContentPerId(staged))
  {
    var staged := PromotedEvents(t, call);
    InsertServesPayloads(t.events, staged);
  }

  /** The staged lines of a call whose load succeeds. */
  function PayloadsOfCall(call: LoadCall): (staged: seq<Payload>)
  {
    if FirstArtifactFault(call.manifest.artifacts, call.store).Some? then [] else StagedPayloads(call.manifest, call.store)
  }

  lemma {:induction false} DistinctIdsCount(staged: seq<Payload>)
    requires AllCastable(staged)
    ensures |StagedIds(staged)| <= |staged|
    ensures (forall i, j :: 0 <= i < j < |staged| ==> staged[i].eventId != staged[j].eventId) ==> |StagedIds(staged)| == |staged|
  {
    if staged != [] {
      var n := |staged| - 1;
      DistinctIdsCount(staged[..n]);
      LastStagedId(staged);
    }
  }

  /**
   * The report of a successful load: inserted counts the staged ids that were new, and the two counts add up to the
   * staged lines and to the gate. With distinct ids, already_present counts the staged ids that were there before.
   */
  lemma SuccessfulLoadCounts(t: Tables, call: LoadCall)
    requires Promotes(t, call)
    ensures AllCastable(PayloadsOfCall(call)) && LoadOutcome(t, call).1.Ok?
    ensures var staged, report := PayloadsOfCall(call), LoadOutcome(t, call).1.value;
      && report.insertedRows + report.alreadyPresentRows == |staged| == call.expectedRows
      && report.insertedRows == |StagedIds(staged) - t.events.Keys|
      && ((forall i, j :: 0 <= i < j < |staged| ==> staged[i].eventId != staged[j].eventId) ==>
            report.alreadyPresentRows == |StagedIds(staged) * t.events.Keys|)
  {
    var staged := PromotedEvents(t, call);
    ReportCounts(t.events, call, staged);
  }

  lemma ReportCounts(events: EventTable, call: LoadCall, staged: seq<Payload>)
    requires AllCastable(staged)
    ensures var report := ReportOf(events, call, staged);
      && report.insertedRows + report.alreadyPresentRows == |staged|
      && report.insertedRows == |StagedIds(staged) - events.Keys|
      && ((forall i, j :: 0 <= i < j < |staged| ==> staged[i].eventId != staged[j].eventId) ==>
            report.alreadyPresentRows == |StagedIds(staged) * events.Keys|)
  {
    RowCountIsGrowth(events, staged);
    InsertCounts(events, staged);
    DistinctIdsCount(staged);
  }

  lemma InsertCounts(events: EventTable, staged: seq<Payload>)
    requires AllCastable(staged)
    ensures |InsertIgnore(events, staged)| - |events| == |StagedIds(staged) - events.Keys|
    ensures |StagedIds(staged)| == |StagedIds(staged) - events.Keys| + |StagedIds(staged) * events.Keys|
  {
    InsertIgnoreExact(events, staged);
    UnionSizes(StagedIds(staged), events.Keys);
    var after := InsertIgnore(events, staged);
    assert |after| == |after.Keys| && |events| == |events.Keys|;
  }

  lemma UnionSizes(a: set<EventId>, b: set<EventId>)
    ensures |b + a| - |b| == |a - b| && |a| == |a - b| + |a * b|
  {
    assert a == (a - b) + (a * b);
    assert b + a == b + (a - b);
  }

  // ----- summaries -----

  /** The rows a load added all carry the gold run id of its manifest. */
  ghost predicate AddedOnlyOwnRun(before: EventTable, after: EventTable, goldRunId: string)
  {
    forall i :: i in after && i !in before ==> GoldOf(after[i]) == goldRunId
  }

  /** Every staged line that brings a new event id names this gold run. */
  ghost predicate NewLinesNameRun(events: EventTable, staged: seq<Payload>, goldRunId: string)
    requires AllCastable(staged)
  {
    forall i, k :: k !in events && Introduces(staged, i, k) ==> staged[i].columns.value.goldRunId == goldRunId
  }

  lemma AddedRunsAreStagedRuns(events: EventTable, staged: seq<Payload>, goldRunId: string)
    requires AllCastable(staged)
    ensures AddedOnlyOwnRun(events, InsertIgnore(events, staged), goldRunId) <==> NewLinesNameRun(events, staged, goldRunId)
  {
    InsertIgnoreExact(events, staged);
    var after := InsertIgnore(events, staged);
    if NewLinesNameRun(events, staged, goldRunId) {
      forall k | k in after && k !in events ensures GoldOf(after[k]) == goldRunId {
        var i := FirstLine(staged, k);
      }
    }
    if AddedOnlyOwnRun(events, after, goldRunId) {
      forall i, k | k !in events && Introduces(staged, i, k) ensures staged[i].columns.value.goldRunId == goldRunId {
        assert k in StagedIds(staged) && after[k] == RowOf(staged[i]);
      }
    }
  }

  /**
   * Rebuilding only the manifest's gold run is enough exactly when the lines that bring new events name that gold run:
   * then all three summaries equal the group-by of the whole detail table, otherwise they have gone stale.
   */
  lemma LoadKeepsSummaries(t: Tables, call: LoadCall)
    requires SummariesMatch(t)
    ensures !Promotes(t, call) ==> SummariesMatch(LoadOutcome(t, call).0)
    ensures Promotes(t, call) ==>
      && AllCastable(PayloadsOfCall(call))
      && (SummariesMatch(LoadOutcome(t, call).0) <==> NewLinesNameRun(t.events, PayloadsOfCall(call), call.manifest.goldRunId))
  {
    OutcomeShape(t, call);
    if Promotes(t, call) {
      var staged := PromotedEvents(t, call);
      AddedRunsAreStagedRuns(t.events, staged, call.manifest.goldRunId);
      var after := LoadOutcome(t, call).0;
      InsertIgnoreExact(t.events, staged);
      assert after == Promoted(Recorded(t, call), call, staged);
      RebuiltMatches(t, after.events, call.manifest.goldRunId);
    }
  }

  lemma RebuiltMatches(t: Tables, events: EventTable, goldRunId: string)
    requires SummariesMatch(t)
    requires OnlyGrew(t.events, events)
    ensures SummariesMatch(Rebuilt(t.(events := events), goldRunId)) <==> AddedOnlyOwnRun(t.events, events, goldRunId)
  {
    if AddedOnlyOwnRun(t.events, events, goldRunId) {
      RebuiltStaysFresh(t, events, goldRunId);
    } else {
      RebuiltGoesStale(t, events, goldRunId);
    }
  }

  lemma RebuiltStaysFresh(t: Tables, events: EventTable, goldRunId: string)
    requires SummariesMatch(t)
    requires OnlyGrew(t.events, events) && AddedOnlyOwnRun(t.events, events, goldRunId)
    ensures SummariesMatch(Rebuilt(t.(events := events), goldRunId))
  {
    assert Outside(t.events, GoldOf, goldRunId) == Outside(events, GoldOf, goldRunId);
    RebuildRefreshes(t.events, events, ObservedDayKey, CountDay, GoldOf, GoldOfDay, goldRunId);
    RebuildRefreshes(t.events, events, ActivityDayKey, CountDay, GoldOf, GoldOfDay, goldRunId);
    RebuildRefreshes(t.events, events, LineageKeyOf, TotalLineage, GoldOf, GoldOfLineage, goldRunId);
  }

  lemma RebuiltGoesStale(t: Tables, events: EventTable, goldRunId: string)
    requires SummariesMatch(t)
    requires OnlyGrew(t.events, events) && !AddedOnlyOwnRun(t.events, events, goldRunId)
    ensures !SummariesMatch(Rebuilt(t.(events := events), goldRunId))
  {
    var i :| i in events && i !in t.events && GoldOf(events[i]) != goldRunId;
    GroupGrows(t.events, events, i);
    RebuildGoesStale(t.events, events, ObservedDayKey, CountDay, GoldOf, GoldOfDay, goldRunId, i);
  }

  lemma GroupGrows(before: EventTable, after: EventTable, i: EventId)
    requires OnlyGrew(before, after) && i in after && i !in before
    ensures CountDay(Group(before, ObservedDayKey, ObservedDayKey(after[i]))) != CountDay(Group(after, ObservedDayKey, ObservedDayKey(after[i])))
  {
    var k := ObservedDayKey(after[i]);
    var was, now := Group(before, ObservedDayKey, k), Group(after, ObservedDayKey, k);
    assert was.Keys <= now.Keys && i in now && i !in was;
    SubsetCardinality(was.Keys, now.Keys);
    assert |was| == |was.Keys| && |now| == |now.Keys|;
  }

  lemma GovernedAddsOwnRun(t: Tables, call: LoadCall)
    requires Governed(call) && Promotes(t, call)
    ensures AddedOnlyOwnRun(t.events, LoadOutcome(t, call).0.events, call.manifest.goldRunId)
  {
    var staged := GovernedLines(t, call);
    AddedRunsAreStagedRuns(t.events, staged, call.manifest.goldRunId);
  }

  lemma GovernedLines(t: Tables, call: LoadCall) returns (staged: seq<Payload>)
    requires Governed(call) && Promotes(t, call)
    ensures staged == PayloadsOfCall(call) && AllCastable(staged)
    ensures LoadOutcome(t, call).0.events == InsertIgnore(t.events, staged)
    ensures NewLinesNameRun(t.events, staged, call.manifest.goldRunId)
  {
    staged := PromotedEvents(t, call);
  }

  /** Over every run of governed loads, each summary equals the group-by of event_detail, for every gold run. */
  lemma {:induction false} SummariesTrackDetail(t: Tables, calls: seq<LoadCall>)
    requires SummariesMatch(t)
    requires forall i :: 0 <= i < |calls| ==> Governed(calls[i])
    ensures SummariesMatch(RunLoads(t, calls))
  {
    if calls != [] {
      var n := |calls| - 1;
      SummariesTrackDetail(t, calls[..n]);
      var before := RunLoads(t, calls[..n]);
      LoadKeepsSummaries(before, calls[n]);
      if Promotes(before, calls[n]) {
        var staged := GovernedLines(before, calls[n]);
      }
    }
  }

  lemma EmptyDatabaseMatches()
    ensures SummariesMatch(EMPTY_DATABASE)
  {
    assert GroupBy(EMPTY_DATABASE.events, ObservedDayKey, CountDay) == map[];
    assert GroupBy(EMPTY_DATABASE.events, ActivityDayKey, CountDay) == map[];
    assert GroupBy(EMPTY_DATABASE.events, LineageKeyOf, TotalLineage) == map[];
  }

  // ----- idempotency keys -----

  ghost predicate KeepsRecords(a: Tables, b: Tables)
  {
    forall k :: k in a.loadRuns ==> k in b.loadRuns && b.loadRuns[k] == a.loadRuns[k]
  }

  /** A load writes no load-run record but its own new one, which ends SUCCEEDED exactly when the load reports success. */
  lemma LoadKeepsRecords(t: Tables, call: LoadCall)
    ensures KeepsRecords(t, LoadOutcome(t, call).0)
    ensures var (after, r) := LoadOutcome(t, call);
      call.manifest.sha !in t.loadRuns && call.manifest.sha in after.loadRuns ==>
        (after.loadRuns[call.manifest.sha].status == SUCCEEDED <==> r.Ok?)
    ensures Promotes(t, call) ==>
      && call.manifest.sha !in t.loadRuns
      && LoadOutcome(t, call).0.loadRuns[call.manifest.sha].status == SUCCEEDED
      && LoadOutcome(t, call).0.loadRuns[call.manifest.sha].goldRunId == call.manifest.goldRunId
  {
    var m := call.manifest;
    if AdmissionError(m, call.store, call.expectedRows).Some? {
    } else if m.sha in t.loadRuns && t.loadRuns[m.sha].status == SUCCEEDED {
    } else if RecordError(t, call).Some? {
    } else {
      TransactionKeepsRecords(t, Recorded(t, call), call);
    }
  }

  lemma TransactionKeepsRecords(t: Tables, recorded: Tables, call: LoadCall)
    requires RecordError(t, call).None? && recorded == Recorded(t, call)
    requires FirstArtifactFault(call.manifest.artifacts, call.store).None?
    ensures var (after, r) := TransactionOutcome(recorded, call);
      && KeepsRecords(t, after)
      && call.manifest.sha in after.loadRuns
      && after.loadRuns[call.manifest.sha].goldRunId == call.manifest.goldRunId
      && (after.loadRuns[call.manifest.sha].status == SUCCEEDED <==> r.Ok?)
  {
    RecordAfterTransaction(recorded, call);
    assert forall k :: k in t.loadRuns ==> k != call.manifest.sha && recorded.loadRuns[k] == t.loadRuns[k];
  }

  /** The serving transaction and its handler write one load-run record: the running one. */
  lemma RecordAfterTransaction(recorded: Tables, call: LoadCall)
    requires call.manifest.sha in recorded.loadRuns && recorded.loadRuns[call.manifest.sha].status == RUNNING
    requires recorded.loadRuns[call.manifest.sha].goldRunId == call.manifest.goldRunId
    requires FirstArtifactFault(call.manifest.artifacts, call.store).None?
    ensures var (after, r) := TransactionOutcome(recorded, call);
      RecordSettled(recorded.loadRuns, after.loadRuns, call.manifest.sha, call.manifest.goldRunId, r.Ok?)
  {
    TransactionShape(recorded, call);
    if TransactionOutcome(recorded, call).1.Ok? {
      PromotedRecord(recorded, call, StagedPayloads(call.manifest, call.store));
    } else {
      UnpromotedRecord(recorded, call);
    }
  }

  /** Only this record may have changed, and it has succeeded exactly when the load has. */
  ghost predicate RecordSettled(before: map<string, LoadRun>, after: map<string, LoadRun>, key: string, goldRunId: string, succeeded: bool)
  {
    && key in after
    && (forall k :: k in before && k != key ==> k in after && after[k] == before[k])
    && after[key].goldRunId == goldRunId
    && (after[key].status == SUCCEEDED <==> succeeded)
  }

  lemma UnpromotedRecord(recorded: Tables, call: LoadCall)
    requires call.manifest.sha in recorded.loadRuns && recorded.loadRuns[call.manifest.sha].status == RUNNING
    requires recorded.loadRuns[call.manifest.sha].goldRunId == call.manifest.goldRunId
    requires FirstArtifactFault(call.manifest.artifacts, call.store).None? && TransactionOutcome(recorded, call).1.Err?
    ensures RecordSettled(recorded.loadRuns, TransactionOutcome(recorded, call).0.loadRuns, call.manifest.sha, call.manifest.goldRunId, false)
  {
    if call.fault.LostInTransaction? {
      assert TransactionOutcome(recorded, call).0 == recorded;
    } else {
      assert TransactionOutcome(recorded, call).0 == Failed(recorded, call.manifest.sha);
    }
  }

  lemma PromotedRecord(t: Tables, call: LoadCall, staged: seq<Payload>)
    requires AllCastable(staged) && call.manifest.sha in t.loadRuns
    ensures var runs := Promoted(t, call, staged).loadRuns;
      && call.manifest.sha in runs
      && (forall k :: k in t.loadRuns && k != call.manifest.sha ==> k in runs && runs[k] == t.loadRuns[k])
      && runs[call.manifest.sha].goldRunId == call.manifest.goldRunId && runs[call.manifest.sha].status == SUCCEEDED
  {
  }

  lemma {:induction false} RunsKeepRecords(t: Tables, calls: seq<LoadCall>)
    ensures KeepsRecords(t, RunLoads(t, calls))
  {
    if calls != [] {
      RunsKeepRecords(t, calls[..|calls| - 1]);
      LoadKeepsRecords(RunLoads(t, calls[..|calls| - 1]), calls[|calls| - 1]);
    }
  }

  /**
   * The UNIQUE idempotency key makes a recorded failure final: once a load has left its record and not succeeded,
   * every later load of that manifest fails and changes nothing, whatever loads ran in between.
   */
  lemma FailedLoadCannotBeRetried(t: Tables, call: LoadCall, calls: seq<LoadCall>, retry: LoadCall)
    requires LoadOutcome(t, call).1.Err? && call.manifest.sha !in t.loadRuns
    requires call.manifest.sha in LoadOutcome(t, call).0.loadRuns
    requires retry.manifest.sha == call.manifest.sha
    ensures var later := RunLoads(LoadOutcome(t, call).0, calls);
      LoadOutcome(later, retry).0 == later && LoadOutcome(later, retry).1.Err?
  {
    LoadKeepsRecords(t, call);
    RunsKeepRecords(LoadOutcome(t, call).0, calls);
    TakenKeyIsRefused(RunLoads(LoadOutcome(t, call).0, calls), retry);
  }

  lemma TakenKeyIsRefused(t: Tables, call: LoadCall)
    requires call.manifest.sha in t.loadRuns && t.loadRuns[call.manifest.sha].status != SUCCEEDED
    ensures LoadOutcome(t, call).0 == t && LoadOutcome(t, call).1.Err?
  {
    assert RecordError(t, call).Some?;
  }

  // ----- reloading -----

  /** A governed load of another gold run, or of an already loaded manifest, leaves the rows of this gold run alone. */
  lemma OtherLoadKeepsRun(t: Tables, key: string, goldRunId: string, other: LoadCall)
    requires key in t.loadRuns && t.loadRuns[key].status == SUCCEEDED
    requires Governed(other) && (other.manifest.goldRunId == goldRunId ==> other.manifest.sha == key)
    ensures RunRows(LoadOutcome(t, other).0.events, goldRunId) == RunRows(t.events, goldRunId)
  {
    LoadKeepsRecords(t, other);
    if Promotes(t, other) {
      LoadOnlyGrows(t, other);
      GovernedAddsOwnRun(t, other);
      OtherRowsKeepRun(t.events, LoadOutcome(t, other).0.events, goldRunId, other.manifest.goldRunId);
    } else {
      OutcomeShape(t, other);
    }
  }

  lemma OtherRowsKeepRun(before: EventTable, after: EventTable, goldRunId: string, other: string)
    requires OnlyGrew(before, after) && AddedOnlyOwnRun(before, after, other) && other != goldRunId
    ensures RunRows(after, goldRunId) == RunRows(before, goldRunId)
  {
  }

  lemma {:induction false} OtherLoadsKeepRun(t: Tables, key: string, goldRunId: string, calls: seq<LoadCall>)
    requires key in t.loadRuns && t.loadRuns[key].status == SUCCEEDED
    requires forall i :: 0 <= i < |calls| ==>
      Governed(calls[i]) && (calls[i].manifest.goldRunId == goldRunId ==> calls[i].manifest.sha == key)
    ensures RunRows(RunLoads(t, calls).events, goldRunId) == RunRows(t.events, goldRunId)
  {
    if calls != [] {
      var n := |calls| - 1;
      OtherLoadsKeepRun(t, key, goldRunId, calls[..n]);
      RunsKeepRecords(t, calls[..n]);
      OtherLoadKeepsRun(RunLoads(t, calls[..n]), key, goldRunId, calls[n]);
    }
  }

  lemma AddedRunRows(before: EventTable, after: EventTable, goldRunId: string)
    requires OnlyGrew(before, after) && AddedOnlyOwnRun(before, after, goldRunId)
    ensures |RunRows(after, goldRunId)| == |RunRows(before, goldRunId)| + (|after| - |before|)
  {
    AddedRunKeys(before, after, goldRunId);
    AddedSizes(before.Keys, after.Keys, RunRows(before, goldRunId).Keys, RunRows(after, goldRunId).Keys);
  }

  lemma AddedRunKeys(before: EventTable, after: EventTable, goldRunId: string)
    requires OnlyGrew(before, after) && AddedOnlyOwnRun(before, after, goldRunId)
    ensures before.Keys <= after.Keys && RunRows(before, goldRunId).Keys <= before.Keys
    ensures RunRows(after, goldRunId).Keys == RunRows(before, goldRunId).Keys + (after.Keys - before.Keys)
  {
  }

  lemma AddedSizes<K>(before: set<K>, after: set<K>, partBefore: set<K>, partAfter: set<K>)
    requires partBefore <= before <= after && partAfter == partBefore + (after - before)
    ensures |partAfter| == |partBefore| + (|after| - |before|)
  {
    assert partBefore !! after - before;
    assert after == before + (after - before);
  }

  lemma PromotedRunRows(t: Tables, call: LoadCall)
    requires Promotes(t, call) && Governed(call)
    ensures |RunRows(LoadOutcome(t, call).0.events, call.manifest.goldRunId)|
         == |RunRows(t.events, call.manifest.goldRunId)| + LoadOutcome(t, call).1.value.insertedRows
  {
    var staged := PromotedEvents(t, call);
    RowCountIsGrowth(t.events, staged);
    LoadOnlyGrows(t, call);
    GovernedAddsOwnRun(t, call);
    AddedRunRows(t.events, LoadOutcome(t, call).0.events, call.manifest.goldRunId);
  }

  /**
   * Reloading a loaded manifest, after any further loads none of which shares its gold run, changes nothing. It is
   * accepted as an idempotent no-op exactly when the rows its gold run held before plus the rows the first load
   * inserted make up the whole gate; so for a new gold run, exactly when nothing was already present.
   */
  lemma ReloadExact(t: Tables, call: LoadCall, calls: seq<LoadCall>, again: LoadCall)
    requires Promotes(t, call) && Governed(call)
    requires again.manifest == call.manifest && again.store == call.store && again.expectedRows == call.expectedRows
    requires forall i :: 0 <= i < |calls| ==>
      Governed(calls[i]) && (calls[i].manifest.goldRunId == call.manifest.goldRunId ==> calls[i].manifest.sha == call.manifest.sha)
    ensures var later := RunLoads(LoadOutcome(t, call).0, calls);
      var held := |RunRows(t.events, call.manifest.goldRunId)|;
      var first := LoadOutcome(t, call).1.value;
      && LoadOutcome(later, again).0 == later
      && (LoadOutcome(later, again).1.Ok? <==> held + first.insertedRows == call.expectedRows)
      && (LoadOutcome(later, again).1.Ok? ==> LoadOutcome(later, again).1.value.idempotentNoop)
      && (held == 0 ==> (LoadOutcome(later, again).1.Ok? <==> first.alreadyPresentRows == 0))
  {
    var key := call.manifest.sha;
    var after := LoadOutcome(t, call).0;
    OutcomeShape(t, call);
    LoadKeepsRecords(t, call);
    PromotedRunRows(t, call);
    OtherLoadsKeepRun(after, key, call.manifest.goldRunId, calls);
    RunsKeepRecords(after, calls);
    SuccessfulLoadCounts(t, call);
    NoopExact(RunLoads(after, calls), again);
  }

  /** A load of a manifest that has already succeeded changes nothing and is accepted exactly when its rows make up the gate. */
  lemma NoopExact(t: Tables, call: LoadCall)
    requires AdmissionError(call.manifest, call.store, call.expectedRows).None?
    requires call.manifest.sha in t.loadRuns && t.loadRuns[call.manifest.sha].status == SUCCEEDED
    ensures var (after, r) := LoadOutcome(t, call);
      && after == t
      && (r.Ok? <==> |RunRows(t.events, t.loadRuns[call.manifest.sha].goldRunId)| == call.expectedRows)
      && (r.Ok? ==> r.value.idempotentNoop)
  {
  }
}
