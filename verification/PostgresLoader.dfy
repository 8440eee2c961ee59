/** The manifest-validated bulk load: admission, the RUNNING record, the serving transaction, commit or rollback. */
module PostgresLoader {
  import opened Common
  import opened Relational
  import opened ServingTables
  import TextOrder

  // ----- manifests and artifact files -----

  datatype DeclaredRows = Absent | NotAnInteger | Count(n: int)

  datatype Artifact = Artifact(path: string, sha: string, bytes: int, rows: DeclaredRows)

  /** The parsed manifest. `sha` is the SHA-256 of its raw bytes: the idempotency key. */
  datatype Manifest = Manifest(sha: string, hasRequiredFields: bool, goldRunId: string, contractVersion: string,
                               expectedRows: int, loadArtifactRows: int, completedAt: Option<int>,
                               artifacts: seq<Artifact>)

  /** One JSON line of a load artifact, as INSERT_EVENT_SQL reads it; columns is None when a cast or NOT NULL fails. */
  datatype Payload =
    | NotJson
    | Json(eventId: Option<EventId>, contentHash: Option<string>, columns: Option<Columns>)

  datatype Line = Blank | Text(payload: Payload)

  datatype ArtifactFile = ArtifactFile(bytes: nat, sha: string, lines: seq<Line>)

  type Store = map<string, ArtifactFile>

  datatype LoadError =
    | MissingFields | RowGateMismatch | ArtifactMissing | ArtifactSizeMismatch | ArtifactChecksumMismatch
    | NoLoadArtifacts | DeclaredRowsInvalid | DeclaredRowsDoNotReconcile
    | ServingRowsDoNotReconcile | MissingCompletedAt | UniqueViolation | CheckViolation | ConnectionLost
    | InvalidJson | StagedRowsMismatch | ContentConflict | InvalidColumns | ForeignKeyViolation
    | RowCountDoesNotReconcile | StatementFailed

  /** What outside failure, if any, strikes a load. */
  datatype Fault =
    | NoFault
    | LostBeforeRecord      // the connection drops before the RUNNING record is committed
    | StatementFails        // a statement inside the serving transaction is refused
    | LostInTransaction     // the connection drops inside the serving transaction: not even FAILED can be recorded

  datatype LoadCall = LoadCall(manifest: Manifest, store: Store, expectedRows: int, loadRunId: string, fault: Fault)

  datatype LoadReport = LoadReport(loadRunId: string, insertedRows: int, alreadyPresentRows: int, idempotentNoop: bool)

  predicate IsLoadArtifact(path: string)
  {
    var normalized := seq(|path|, i requires 0 <= i < |path| => if path[i] == '\\' then '/' else path[i]);
    "load_artifact/part-" <= normalized && EndsWith(path, ".json")
  }

  predicate EndsWith(s: string, suffix: string)
  {
    |suffix| <= |s| && s[|s| - |suffix|..] == suffix
  }

  function LoadArtifacts(artifacts: seq<Artifact>): (r: seq<Artifact>)
    ensures forall a :: a in r <==> a in artifacts && IsLoadArtifact(a.path)
  {
    if artifacts == [] then [] else
      (if IsLoadArtifact(artifacts[0].path) then [artifacts[0]] else []) + LoadArtifacts(artifacts[1..])
  }

  // ----- admission -----

  function ArtifactFault(a: Artifact, store: Store): Option<LoadError>
  {
    if a.path !in store then Some(ArtifactMissing)
    else if store[a.path].bytes != a.bytes then Some(ArtifactSizeMismatch)
    else if store[a.path].sha != a.sha then Some(ArtifactChecksumMismatch)
    else None
  }

  /** The error of the first artifact that fails, if one does. */
  function FirstArtifactFault(artifacts: seq<Artifact>, store: Store): (r: Option<LoadError>)
    ensures r.None? <==> forall a :: a in artifacts ==> ArtifactFault(a, store).None?
  {
    if artifacts == [] then None
    else if ArtifactFault(artifacts[0], store).Some? then ArtifactFault(artifacts[0], store)
    else FirstArtifactFault(artifacts[1..], store)
  }

  predicate ValidCount(d: DeclaredRows)
  {
    d.Count? && d.n >= 0
  }

  function SumDeclared(artifacts: seq<Artifact>): int
    requires forall i :: 0 <= i < |artifacts| ==> ValidCount(artifacts[i].rows)
  {
    if artifacts == [] then 0 else assert ValidCount(artifacts[0].rows); artifacts[0].rows.n + SumDeclared(artifacts[1..])
  }

  function AdmissionError(m: Manifest, store: Store, expectedRows: int): Option<LoadError>
  {
    if !m.hasRequiredFields then Some(MissingFields)
    else if m.expectedRows != expectedRows || m.loadArtifactRows != expectedRows then Some(RowGateMismatch)
    else if FirstArtifactFault(m.artifacts, store).Some? then FirstArtifactFault(m.artifacts, store)
    else
      var loads := LoadArtifacts(m.artifacts);
      if loads == [] then Some(NoLoadArtifacts)
      else if forall a :: a in loads ==> a.rows.Absent? then None
      else if exists a :: a in loads && !ValidCount(a.rows) then Some(DeclaredRowsInvalid)
      else if SumDeclared(loads) != expectedRows then Some(DeclaredRowsDoNotReconcile)
      else None
  }

  method LoadManifest(m: Manifest, store: Store, expectedRows: int) returns (error: Option<LoadError>)
    ensures error == AdmissionError(m, store, expectedRows)
  {
    if !m.hasRequiredFields {
      return Some(MissingFields);
    }
    if m.expectedRows != expectedRows || m.loadArtifactRows != expectedRows {
      return Some(RowGateMismatch);
    }
    for i := 0 to |m.artifacts|
      invariant FirstArtifactFault(m.artifacts, store) == FirstArtifactFault(m.artifacts[i..], store)
    {
      var artifact := m.artifacts[i];
      assert m.artifacts[i..][0] == artifact && m.artifacts[i..][1..] == m.artifacts[i + 1..];
      if artifact.path !in store {
        return Some(ArtifactMissing);
      }
      if store[artifact.path].bytes != artifact.bytes {
        return Some(ArtifactSizeMismatch);
      }
      if store[artifact.path].sha != artifact.sha {
        return Some(ArtifactChecksumMismatch);
      }
    }
    var loadArtifacts := LoadArtifacts(m.artifacts);
    if loadArtifacts == [] {
      return Some(NoLoadArtifacts);
    }
    if exists a :: a in loadArtifacts && !a.rows.Absent? {
      if exists a :: a in loadArtifacts && !ValidCount(a.rows) {
        return Some(DeclaredRowsInvalid);
      }
      if SumDeclared(loadArtifacts) != expectedRows {
        return Some(DeclaredRowsDoNotReconcile);
      }
    }
    return None;
  }

  // ----- staging -----

  function PathOf(a: Artifact): string { a.path }

  function NonBlank(lines: seq<Line>): seq<Payload>
  {
    if lines == [] then [] else
      NonBlank(lines[..|lines| - 1]) + (if lines[|lines| - 1].Text? then [lines[|lines| - 1].payload] else [])
  }

  predicate ArtifactsStored(artifacts: seq<Artifact>, store: Store)
  {
    forall i :: 0 <= i < |artifacts| ==> artifacts[i].path in store
  }

  /** The payload lines of the given artifacts, file after file. */
  function PayloadsOf(artifacts: seq<Artifact>, store: Store): seq<Payload>
    requires ArtifactsStored(artifacts, store)
  {
    if artifacts == [] then [] else
      PayloadsOf(artifacts[..|artifacts| - 1], store) + NonBlank(store[artifacts[|artifacts| - 1].path].lines)
  }

  function SortedLoadArtifacts(m: Manifest): (r: seq<Artifact>)
    ensures forall i :: 0 <= i < |r| ==> r[i] in LoadArtifacts(m.artifacts)
  {
    TextOrder.SortIsSorted(LoadArtifacts(m.artifacts), PathOf);
    var sorted := TextOrder.SortByText(LoadArtifacts(m.artifacts), PathOf);
    assert forall i :: 0 <= i < |sorted| ==> sorted[i] in multiset(sorted);
    sorted
  }

  /** What iter_payloads yields for an admitted manifest. */
  function StagedPayloads(m: Manifest, store: Store): seq<Payload>
    requires FirstArtifactFault(m.artifacts, store).None?
  {
    PayloadsOf(SortedLoadArtifacts(m), store)
  }

  // ----- INSERT_EVENT_SQL -----

  predicate Castable(p: Payload)
  {
    p.Json? && p.eventId.Some? && p.contentHash.Some? && p.columns.Some? && PassesChecks(p.columns.value)
  }

  predicate AllCastable(staged: seq<Payload>)
  {
    forall i :: 0 <= i < |staged| ==> Castable(staged[i])
  }

  function RowOf(p: Payload): Row
    requires Castable(p)
  {
    Row(p.columns.value, p.contentHash.value)
  }

  /** `INSERT .. SELECT .. FROM temp_gold_event ON CONFLICT (event_id) DO NOTHING` */
  function InsertIgnore(events: EventTable, staged: seq<Payload>): EventTable
    requires AllCastable(staged)
  {
    if staged == [] then events
    else
      var before := InsertIgnore(events, staged[..|staged| - 1]);
      var p := staged[|staged| - 1];
      if p.eventId.value in before then before else before[p.eventId.value := RowOf(p)]
  }

  function StagedIds(staged: seq<Payload>): set<EventId>
    requires AllCastable(staged)
  {
    set i | 0 <= i < |staged| :: staged[i].eventId.value
  }

  /** The staged lines the conflict query counts: same event id, different content hash. */
  function Conflicts(events: EventTable, staged: seq<Payload>): set<int>
  {
    set i | 0 <= i < |staged| && staged[i].Json? && staged[i].eventId.Some? && staged[i].eventId.value in events
            && staged[i].contentHash.Some? && staged[i].contentHash.value != events[staged[i].eventId.value].contentHash
  }

  // ----- what one load does to the committed database -----

  function RunRows(events: EventTable, goldRunId: string): EventTable
  {
    Group(events, GoldOf, goldRunId)
  }

  /** The three summaries with this gold run's part rebuilt from the detail table. */
  function Rebuilt(t: Tables, goldRunId: string): Tables
  {
    t.(daily := Rebuild(t.daily, t.events, ObservedDayKey, CountDay, GoldOf, GoldOfDay, goldRunId),
       activity := Rebuild(t.activity, t.events, ActivityDayKey, CountDay, GoldOf, GoldOfDay, goldRunId),
       lineage := Rebuild(t.lineage, t.events, LineageKeyOf, TotalLineage, GoldOf, GoldOfLineage, goldRunId))
  }

  /** The database once the staged lines are inserted. */
  function Inserted(t: Tables, staged: seq<Payload>): Tables
    requires AllCastable(staged)
  {
    t.(events := InsertIgnore(t.events, staged))
  }

  function TransactionError(t: Tables, staged: seq<Payload>, expectedRows: int): Option<LoadError>
  {
    if NotJson in staged then Some(InvalidJson)
    else if |staged| != expectedRows then Some(StagedRowsMismatch)
    else if Conflicts(t.events, staged) != {} then Some(ContentConflict)
    else if !AllCastable(staged) then Some(InvalidColumns)
    else if ForeignKeyBroken(t.events, InsertIgnore(t.events, staged), t.goldRuns.Keys) then Some(ForeignKeyViolation)
    else None
  }

  /** Some row the statement inserted names a gold run that does not exist. */
  predicate ForeignKeyBroken(before: EventTable, after: EventTable, goldRuns: set<string>)
  {
    exists i :: i in after && i !in before && GoldOf(after[i]) !in goldRuns
  }

  /** The rows load_control.loaded_artifact receives for one artifact. */
  function ArtifactRows(a: Artifact, m: Manifest, expectedRows: int): DeclaredRows
  {
    if !a.rows.Absent? then a.rows
    else if IsLoadArtifact(a.path) && |LoadArtifacts(m.artifacts)| == 1 then Count(expectedRows)
    else Count(0)
  }

  function RecordError(t: Tables, call: LoadCall): Option<LoadError>
  {
    var m := call.manifest;
    if call.fault.LostBeforeRecord? then Some(ConnectionLost)
    else if m.completedAt.None? then Some(MissingCompletedAt)
    else if call.expectedRows < 0 then Some(CheckViolation)
    else if m.sha in t.loadRuns || exists k :: k in t.loadRuns && t.loadRuns[k].loadRunId == call.loadRunId then
      Some(UniqueViolation)
    else ArtifactRecordError(t.artifacts, call, m.artifacts)
  }

  /** The error of the first loaded_artifact insert that fails, if one does. */
  function ArtifactRecordError(records: map<ArtifactKey, ArtifactRecord>, call: LoadCall, pending: seq<Artifact>): Option<LoadError>
    decreases |pending|
  {
    if pending == [] then None
    else
      var a := pending[0];
      var rows := ArtifactRows(a, call.manifest, call.expectedRows);
      if !ValidCount(rows) then Some(CheckViolation)
      else if ArtifactKey(call.loadRunId, a.path) in records then Some(UniqueViolation)
      else ArtifactRecordError(records[ArtifactKey(call.loadRunId, a.path) := ArtifactRecord(a.sha, a.bytes, rows.n)], call, pending[1..])
  }

  function ArtifactRecords(records: map<ArtifactKey, ArtifactRecord>, call: LoadCall, pending: seq<Artifact>): map<ArtifactKey, ArtifactRecord>
    requires ArtifactRecordError(records, call, pending).None?
    decreases |pending|
  {
    if pending == [] then records
    else
      var a := pending[0];
      var rows := ArtifactRows(a, call.manifest, call.expectedRows);
      ArtifactRecords(records[ArtifactKey(call.loadRunId, a.path) := ArtifactRecord(a.sha, a.bytes, rows.n)], call, pending[1..])
  }

  /** The database once the RUNNING record is committed. */
  function Recorded(t: Tables, call: LoadCall): Tables
    requires RecordError(t, call).None?
  {
    var m := call.manifest;
    t.(goldRuns := if m.goldRunId in t.goldRuns then t.goldRuns
                   else t.goldRuns[m.goldRunId := GoldRun(m.contractVersion, m.sha, call.expectedRows)],
       loadRuns := t.loadRuns[m.sha := LoadRun(call.loadRunId, m.goldRunId, RUNNING, call.expectedRows, None, None, None)],
       artifacts := ArtifactRecords(t.artifacts, call, m.artifacts))
  }

  function WithStatus(t: Tables, key: string, run: LoadRun): Tables
  {
    t.(loadRuns := t.loadRuns[key := run])
  }

  /** The committed database and the answer after one call of the loader command. */
  function LoadOutcome(t: Tables, call: LoadCall): (Tables, Result<LoadReport, LoadError>)
  {
    var m := call.manifest;
    var admission := AdmissionError(m, call.store, call.expectedRows);
    if admission.Some? then (t, Err(admission.value))
    else if m.sha in t.loadRuns && t.loadRuns[m.sha].status == SUCCEEDED then
      var existing := t.loadRuns[m.sha];
      if |RunRows(t.events, existing.goldRunId)| != call.expectedRows then (t, Err(ServingRowsDoNotReconcile))
      else (t, Ok(LoadReport(existing.loadRunId, 0, call.expectedRows, true)))
    else
      var refused := RecordError(t, call);
      if refused.Some? then (t, Err(refused.value))
      else
        TransactionOutcome(Recorded(t, call), call)
  }

  /** What the serving transaction and its exception handler leave, from the state that holds the RUNNING record. */
  function TransactionOutcome(recorded: Tables, call: LoadCall): (Tables, Result<LoadReport, LoadError>)
    requires call.manifest.sha in recorded.loadRuns
    requires FirstArtifactFault(call.manifest.artifacts, call.store).None?
  {
    var m := call.manifest;
    var staged := StagedPayloads(m, call.store);
    var failed := TransactionError(recorded, staged, call.expectedRows);
    if call.fault.LostInTransaction? then (recorded, Err(ConnectionLost))
    else if failed.Some? then (Failed(recorded, m.sha), Err(failed.value))
    else if call.fault.StatementFails? then (Failed(recorded, m.sha), Err(StatementFailed))
    else (Promoted(recorded, call, staged), Ok(ReportOf(recorded.events, call, staged)))
  }

  function ReportOf(events: EventTable, call: LoadCall, staged: seq<Payload>): LoadReport
    requires AllCastable(staged)
  {
    var inserted := RowCount(events, staged);
    LoadReport(call.loadRunId, inserted, |staged| - inserted, false)
  }

  function Failed(t: Tables, key: string): Tables
    requires key in t.loadRuns
  {
    WithStatus(t, key, t.loadRuns[key].(status := FAILED))
  }

  /** The database after a successful serving transaction. */
  function Promoted(t: Tables, call: LoadCall, staged: seq<Payload>): Tables
    requires AllCastable(staged)
  {
    WithStatus(Rebuilt(Inserted(t, staged), call.manifest.goldRunId), call.manifest.sha,
      SucceededRun(call, |staged|, RowCount(t.events, staged)))
  }

  function SucceededRun(call: LoadCall, stagedRows: int, inserted: int): LoadRun
  {
    LoadRun(call.loadRunId, call.manifest.goldRunId, SUCCEEDED, call.expectedRows, Some(stagedRows), Some(inserted), Some(stagedRows - inserted))
  }

  // ----- the loader itself -----

  /** A database session: what its open transaction sees, and what is committed. */
  class Connection {
    var tables: Tables
    var committed: Tables

    constructor Open(database: Tables)
      ensures tables == committed == database
    {
      tables, committed := database, database;
    }

    method Commit()
      modifies this
      ensures tables == committed == old(tables)
    {
      committed := tables;
    }

    method Rollback()
      modifies this
      ensures tables == committed == old(committed)
    {
      tables := committed;
    }
  }

  method InsertArtifactRecords(c: Connection, call: LoadCall) returns (error: Option<LoadError>)
    modifies c`tables
    ensures error == ArtifactRecordError(old(c.tables.artifacts), call, call.manifest.artifacts)
    ensures error.None? ==>
      c.tables == old(c.tables).(artifacts := ArtifactRecords(old(c.tables.artifacts), call, call.manifest.artifacts))
  {
    var m := call.manifest;
    var loadArtifactCount := |LoadArtifacts(m.artifacts)|;
    for i := 0 to |m.artifacts|
      invariant c.tables == old(c.tables).(artifacts := c.tables.artifacts)
      invariant ArtifactRecordError(old(c.tables.artifacts), call, m.artifacts)
             == ArtifactRecordError(c.tables.artifacts, call, m.artifacts[i..])
      invariant ArtifactRecordError(c.tables.artifacts, call, m.artifacts[i..]).None? ==>
        ArtifactRecords(old(c.tables.artifacts), call, m.artifacts)
        == ArtifactRecords(c.tables.artifacts, call, m.artifacts[i..])
    {
      var artifact := m.artifacts[i];
      assert m.artifacts[i..][0] == artifact && m.artifacts[i..][1..] == m.artifacts[i + 1..];
      var artifactRows := artifact.rows;
      if artifactRows.Absent? {
        artifactRows := Count(if IsLoadArtifact(artifact.path) && loadArtifactCount == 1 then call.expectedRows else 0);
      }
      if !ValidCount(artifactRows) {
        return Some(CheckViolation);
      }
      var key := ArtifactKey(call.loadRunId, artifact.path);
      if key in c.tables.artifacts {
        return Some(UniqueViolation);
      }
      c.tables := c.tables.(artifacts := c.tables.artifacts[key := ArtifactRecord(artifact.sha, artifact.bytes, artifactRows.n)]);
    }
    return None;
  }

  method CopyLines(lines: seq<Line>) returns (payloads: seq<Payload>)
    ensures payloads == NonBlank(lines)
  {
    payloads := [];
    for j := 0 to |lines|
      invariant payloads == NonBlank(lines[..j])
    {
      assert lines[..j + 1][..j] == lines[..j];
      if lines[j].Text? {
        payloads := payloads + [lines[j].payload];
      }
    }
    assert lines[..|lines|] == lines;
  }

  /** The COPY loop: every non-blank line of every load artifact, in path order, counted as it is written. */
  method StagePayloads(m: Manifest, store: Store) returns (staged: seq<Payload>, stagedRows: nat)
    requires FirstArtifactFault(m.artifacts, store).None?
    ensures staged == StagedPayloads(m, store)
    ensures stagedRows == |staged|
  {
    staged, stagedRows := [], 0;
    var paths := SortedLoadArtifacts(m);
    assert ArtifactsStored(paths, store);
    for i := 0 to |paths|
      invariant ArtifactsStored(paths[..i], store)
      invariant staged == PayloadsOf(paths[..i], store)
      invariant stagedRows == |staged|
    {
      var copied := CopyLines(store[paths[i].path].lines);
      staged := staged + copied;
      stagedRows := stagedRows + |copied|;
      assert paths[..i + 1][..i] == paths[..i];
    }
    assert paths[..|paths|] == paths;
  }

  method RebuildSummaries(c: Connection, goldRunId: string)
    modifies c`tables
    ensures c.tables == Rebuilt(old(c.tables), goldRunId)
  {
    var events := c.tables.events;
    c.tables := c.tables.(daily := Rebuild(c.tables.daily, events, ObservedDayKey, CountDay, GoldOf, GoldOfDay, goldRunId));
    c.tables := c.tables.(activity := Rebuild(c.tables.activity, events, ActivityDayKey, CountDay, GoldOf, GoldOfDay, goldRunId));
    c.tables := c.tables.(lineage := Rebuild(c.tables.lineage, events, LineageKeyOf, TotalLineage, GoldOf, GoldOfLineage, goldRunId));
  }

  /** The checks of the serving transaction up to and including the INSERT statement's own. */
  method CheckStaged(t: Tables, staged: seq<Payload>, stagedRows: nat, expectedRows: int) returns (error: Option<LoadError>)
    requires stagedRows == |staged|
    ensures error == TransactionError(t, staged, expectedRows)
    ensures error.None? ==> AllCastable(staged)
  {
    if NotJson in staged {
      return Some(InvalidJson);
    }
    if stagedRows != expectedRows {
      return Some(StagedRowsMismatch);
    }
    var conflicts := |Conflicts(t.events, staged)|;
    if conflicts != 0 {
      return Some(ContentConflict);
    }
    if !AllCastable(staged) {
      return Some(InvalidColumns);
    }
    var events := InsertIgnore(t.events, staged);
    if ForeignKeyBroken(t.events, events, t.goldRuns.Keys) {
      return Some(ForeignKeyViolation);
    }
    return None;
  }

  /** The statements that change the serving tables, in order. */
  method Promote(c: Connection, call: LoadCall, staged: seq<Payload>, stagedRows: nat) returns (r: Result<LoadReport, LoadError>)
    requires stagedRows == |staged| && AllCastable(staged)
    modifies c`tables
    ensures c.tables == Promoted(old(c.tables), call, staged)
    ensures r == Ok(ReportOf(old(c.tables.events), call, staged))
  {
    var inserted, reconciles := InsertStaged(c, staged);
    if !reconciles {
      return Err(RowCountDoesNotReconcile);
    }
    var alreadyPresent := stagedRows - inserted;
    RebuildSummaries(c, call.manifest.goldRunId);
    MarkSucceeded(c, call, stagedRows, inserted, alreadyPresent);
    return Ok(LoadReport(call.loadRunId, inserted, alreadyPresent, false));
  }

  method MarkSucceeded(c: Connection, call: LoadCall, stagedRows: int, inserted: int, alreadyPresent: int)
    requires alreadyPresent == stagedRows - inserted
    modifies c`tables
    ensures c.tables == WithStatus(old(c.tables), call.manifest.sha, SucceededRun(call, stagedRows, inserted))
  {
    var run := LoadRun(call.loadRunId, call.manifest.goldRunId, SUCCEEDED, call.expectedRows, Some(stagedRows), Some(inserted), Some(alreadyPresent));
    c.tables := WithStatus(c.tables, call.manifest.sha, run);
  }

  /** The INSERT statement, the row count it reports, and its comparison with the table's growth, which cannot fail. */
  method InsertStaged(c: Connection, staged: seq<Payload>) returns (inserted: nat, reconciles: bool)
    requires AllCastable(staged)
    modifies c`tables
    ensures c.tables == Inserted(old(c.tables), staged)
    ensures inserted == RowCount(old(c.tables.events), staged) && reconciles
  {
    var before := |c.tables.events|;
    inserted := RowCount(c.tables.events, staged);
    RowCountIsGrowth(c.tables.events, staged);
    c.tables := c.tables.(events := InsertIgnore(c.tables.events, staged));
    var after := |c.tables.events|;
    reconciles := after == before + inserted;
  }

  /** The row count the INSERT statement reports: one per staged line that was not ignored. */
  function RowCount(events: EventTable, staged: seq<Payload>): nat
    requires AllCastable(staged)
  {
    if staged == [] then 0
    else
      var rest := staged[..|staged| - 1];
      RowCount(events, rest) + if staged[|staged| - 1].eventId.value in InsertIgnore(events, rest) then 0 else 1
  }

  /** The count the loader checks after its INSERT always reconciles. */
  lemma {:induction false} RowCountIsGrowth(events: EventTable, staged: seq<Payload>)
    requires AllCastable(staged)
    ensures |InsertIgnore(events, staged)| == |events| + RowCount(events, staged)
  {
    if staged != [] {
      RowCountIsGrowth(events, staged[..|staged| - 1]);
    }
  }

  /** The try block of load and its handler: commit, or roll back and record FAILED. */
  method RunTransaction(c: Connection, call: LoadCall) returns (r: Result<LoadReport, LoadError>)
    requires c.tables == c.committed && call.manifest.sha in c.tables.loadRuns
    requires FirstArtifactFault(call.manifest.artifacts, call.store).None?
    modifies c
    ensures (c.committed, r) == TransactionOutcome(old(c.tables), call)
    ensures c.tables == c.committed
  {
    var m := call.manifest;
    var staged, stagedRows := StagePayloads(m, call.store);
    var error := CheckStaged(c.tables, staged, stagedRows, call.expectedRows);
    if call.fault.LostInTransaction? {
      c.Rollback();
      return Err(ConnectionLost);
    }
    if error.None? && call.fault.StatementFails? {
      error := Some(StatementFailed);
    }
    if error.Some? {
      c.Rollback();
      c.tables := Failed(c.tables, m.sha);
      c.Commit();
      return Err(error.value);
    }
    r := Promote(c, call, staged, stagedRows);
    c.Commit();
  }

  /** The gold_run, RUNNING and loaded_artifact inserts, committed before the serving transaction opens. */
  method RecordRun(c: Connection, call: LoadCall) returns (error: Option<LoadError>)
    requires c.tables == c.committed
    modifies c
    ensures error == RecordError(old(c.tables), call)
    ensures error.Some? ==> c.committed == old(c.committed)
    ensures error.None? ==> c.tables == c.committed == Recorded(old(c.tables), call)
  {
    var m := call.manifest;
    if call.fault.LostBeforeRecord? {
      return Some(ConnectionLost);
    }
    if m.completedAt.None? {
      return Some(MissingCompletedAt);
    }
    if call.expectedRows < 0 {
      return Some(CheckViolation);
    }
    if m.goldRunId !in c.tables.goldRuns {
      c.tables := c.tables.(goldRuns := c.tables.goldRuns[m.goldRunId := GoldRun(m.contractVersion, m.sha, call.expectedRows)]);
    }
    if m.sha in c.tables.loadRuns || exists k :: k in c.tables.loadRuns && c.tables.loadRuns[k].loadRunId == call.loadRunId {
      return Some(UniqueViolation);
    }
    c.tables := WithStatus(c.tables, m.sha, LoadRun(call.loadRunId, m.goldRunId, RUNNING, call.expectedRows, None, None, None));
    error := InsertArtifactRecords(c, call);
    if error.None? {
      c.Commit();
    }
  }

  method Load(c: Connection, call: LoadCall) returns (r: Result<LoadReport, LoadError>)
    requires c.tables == c.committed
    modifies c
    ensures (c.committed, r) == LoadOutcome(old(c.committed), call)
    ensures r.Ok? ==> c.tables == c.committed
  {
    var m := call.manifest;
    var refused := LoadManifest(m, call.store, call.expectedRows);
    if refused.Some? {
      return Err(refused.value);
    }
    if m.sha in c.tables.loadRuns && c.tables.loadRuns[m.sha].status == SUCCEEDED {
      var existing := c.tables.loadRuns[m.sha];
      var persistedRows := |RunRows(c.tables.events, existing.goldRunId)|;
      if persistedRows != call.expectedRows {
        return Err(ServingRowsDoNotReconcile);
      }
      return Ok(LoadReport(existing.loadRunId, 0, call.expectedRows, true));
    }
    refused := RecordRun(c, call);
    if refused.Some? {
      return Err(refused.value);
    }
    r := RunTransaction(c, call);
  }

  /** The command around Load: a load that raises leaves no transaction open behind it. */
  method LoadCommand(c: Connection, call: LoadCall) returns (r: Result<LoadReport, LoadError>)
    requires c.tables == c.committed
    modifies c
    ensures (c.committed, r) == LoadOutcome(old(c.committed), call)
    ensures c.tables == c.committed
  {
    r := Load(c, call);
    if r.Ok? {
      c.Commit();
    } else {
      c.Rollback();
    }
  }
}
