/** The serving schema: typed rows of serving.event_detail, its three summaries and the load-control records. */
module ServingTables {
  import opened Common
  import opened Relational

  type EventId = string

  datatype SourceType = NASA_ORIGINAL | NASA_REPLAY | SYNTHETIC_SCALE_TEST

  /** The typed columns of an event; times are microseconds since the epoch, in UTC. */
  datatype Columns = Columns(
    detectionId: string,
    lineageRootId: string,
    sourceType: SourceType,
    sourceDataset: string,
    isSynthetic: bool,
    replayRunId: Option<string>,
    syntheticGenerationId: Option<string>,
    scheduledReplayTime: Option<int>,
    replayIteration: Option<int>,
    replaySequence: Option<int>,
    eventTime: int,
    ingestionTime: int,
    latitude: real,
    longitude: real,
    dayNight: Option<string>,
    schemaVersion: string,
    kafkaPartition: Option<int>,
    kafkaOffset: Option<int>,
    validationStatus: string,
    deduplicationStatus: string,
    goldRunId: string,
    otherColumns: seq<Option<string>>)

  datatype Row = Row(columns: Columns, contentHash: string)

  type EventTable = map<EventId, Row>

  const MICROSECONDS_PER_DAY := 86_400_000_000

  /** COALESCE(scheduled_replay_timestamp, event_timestamp) */
  function Activity(r: Row): int
  {
    match r.columns.scheduledReplayTime
    case Some(t) => t
    case None => r.columns.eventTime
  }

  function Day(time: int): int
  {
    time / MICROSECONDS_PER_DAY
  }

  /**
   * The CHECK constraints of event_detail. A CHECK rejects only FALSE, so nulls pass. The two on the geometry hold by
   * construction: the insert builds it from longitude and latitude.
   */
  predicate PassesChecks(c: Columns)
  {
    && -90.0 <= c.latitude <= 90.0
    && -180.0 <= c.longitude <= 180.0
    && c.eventTime <= c.ingestionTime
    && GovernedText(c)
    && (c.kafkaPartition.Some? ==> c.kafkaPartition.value >= 0)
    && (c.kafkaOffset.Some? ==> c.kafkaOffset.value >= 0)
    && match c.sourceType
       case NASA_ORIGINAL => !c.isSynthetic && c.replayRunId.None? && c.syntheticGenerationId.None?
       case NASA_REPLAY =>
         && !c.isSynthetic && c.replayRunId.Some? && c.scheduledReplayTime.Some?
         && (c.replayIteration.Some? ==> c.replayIteration.value > 0)
         && (c.replaySequence.Some? ==> c.replaySequence.value >= 0)
       case SYNTHETIC_SCALE_TEST => c.isSynthetic && c.syntheticGenerationId.Some?
  }

  /** The CHECKs on text columns. */
  predicate GovernedText(c: Columns)
  {
    && (c.dayNight.Some? ==> c.dayNight.value == "D" || c.dayNight.value == "N")
    && c.schemaVersion == "1.0.0" && c.validationStatus == "ACCEPTED" && c.deduplicationStatus == "UNIQUE"
  }

  // ----- the three summaries -----

  datatype DayKey = DayKey(goldRunId: string, day: int, sourceDataset: string, sourceType: SourceType)

  datatype DayCounts = DayCounts(messages: nat, uniqueEvents: nat, uniqueDetections: nat,
                                 originals: nat, replays: nat, synthetics: nat)

  datatype LineageKey = LineageKey(goldRunId: string, lineageRootId: string)

  datatype LineageTotals = LineageTotals(messages: nat, originals: nat, replays: nat, synthetics: nat,
                                         firstEventTime: Option<int>, lastActivityTime: Option<int>)

  function GoldOf(r: Row): string { r.columns.goldRunId }

  function ObservedDayKey(r: Row): DayKey
  {
    DayKey(GoldOf(r), Day(r.columns.eventTime), r.columns.sourceDataset, r.columns.sourceType)
  }

  function ActivityDayKey(r: Row): DayKey
  {
    DayKey(GoldOf(r), Day(Activity(r)), r.columns.sourceDataset, r.columns.sourceType)
  }

  function LineageKeyOf(r: Row): LineageKey
  {
    LineageKey(GoldOf(r), r.columns.lineageRootId)
  }

  function GoldOfDay(k: DayKey): string { k.goldRunId }

  function GoldOfLineage(k: LineageKey): string { k.goldRunId }

  function OfType(t: EventTable, s: SourceType): set<EventId>
  {
    set i | i in t && t[i].columns.sourceType == s
  }

  function Detections(t: EventTable): set<string>
  {
    set i | i in t :: t[i].columns.detectionId
  }

  function EventTimes(t: EventTable): set<int>
  {
    set i | i in t :: t[i].columns.eventTime
  }

  function Activities(t: EventTable): set<int>
  {
    set i | i in t :: Activity(t[i])
  }

  /** SQL MIN and MAX: null over no rows. */
  function Least(s: set<int>): Option<int> { if s == {} then None else Some(MinOf(s)) }

  function Greatest(s: set<int>): Option<int> { if s == {} then None else Some(MaxOf(s)) }

  function CountDay(t: EventTable): DayCounts
  {
    DayCounts(|t|, |t.Keys|, |Detections(t)|,
              |OfType(t, NASA_ORIGINAL)|, |OfType(t, NASA_REPLAY)|, |OfType(t, SYNTHETIC_SCALE_TEST)|)
  }

  function TotalLineage(t: EventTable): LineageTotals
  {
    LineageTotals(|t|, |OfType(t, NASA_ORIGINAL)|, |OfType(t, NASA_REPLAY)|, |OfType(t, SYNTHETIC_SCALE_TEST)|,
                  Least(EventTimes(t)), Greatest(Activities(t)))
  }

  // ----- load control -----

  datatype GoldRun = GoldRun(contractVersion: string, manifestSha: string, expectedRows: int)

  datatype LoadStatus = RUNNING | SUCCEEDED | FAILED

  datatype LoadRun = LoadRun(loadRunId: string, goldRunId: string, status: LoadStatus, manifestRows: int,
                             stagedRows: Option<int>, insertedRows: Option<int>, alreadyPresentRows: Option<int>)

  datatype ArtifactKey = ArtifactKey(loadRunId: string, path: string)

  datatype ArtifactRecord = ArtifactRecord(sha: string, bytes: int, expectedRows: int)

  /**
   * Every table of the database. load_control.database_load_run is keyed by its UNIQUE idempotency key;
   * the uniqueness of its primary key load_run_id is checked on insert.
   */
  datatype Tables = Tables(
    events: EventTable,
    daily: map<DayKey, DayCounts>,
    activity: map<DayKey, DayCounts>,
    lineage: map<LineageKey, LineageTotals>,
    goldRuns: map<string, GoldRun>,
    loadRuns: map<string, LoadRun>,
    artifacts: map<ArtifactKey, ArtifactRecord>)

  const EMPTY_DATABASE := Tables(map[], map[], map[], map[], map[], map[], map[])

  /** Each summary is exactly the group-by of the detail table, for every gold run. */
  ghost predicate SummariesMatch(t: Tables)
  {
    && t.daily == GroupBy(t.events, ObservedDayKey, CountDay)
    && t.activity == GroupBy(t.events, ActivityDayKey, CountDay)
    && t.lineage == GroupBy(t.events, LineageKeyOf, TotalLineage)
  }

  /** The serving tables of two states agree; load control may differ. */
  ghost predicate SameServing(a: Tables, b: Tables)
  {
    a.events == b.events && a.daily == b.daily && a.activity == b.activity && a.lineage == b.lineage
  }

  /** Nothing but insertions happened to the detail table. */
  ghost predicate OnlyGrew(a: EventTable, b: EventTable)
  {
    forall i :: i in a ==> i in b && b[i] == a[i]
  }
}
