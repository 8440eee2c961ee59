# Verified model of the Earth-observation event pipeline

This project models, in Dafny, the parts of the pipeline whose value lies in reconciliation, and proves what they promise:

- **Serving load and its readers**: the PostgreSQL loader as a transaction state machine over the schema's tables, the platform
  summary in its materialised and its scanning form, and keyset pagination over a table that loads keep growing.
- **Aggregate cache**: the bounded TTL/LRU cache, its history, and the endpoint helper that must stay correct with or without it.
- **Controlled replay**: the generator's nested loops and the independent verifier's flat loop, against each other.
- **Orchestration**: run manifests under arbitrary calls, and under any number of interleaved, retried and crashing DAG runs.
- **Kafka accounting**: producer, bounded consumer and failure router over append-only partitions, with delivery callbacks, foreign
  writers and watermarks that are read one partition after another.
- **Identity and deduplication**: the decimal and time normal forms under the source identity, Spark's validation in three-valued
  logic with its deduplication window, and the canonicaliser's row loop.

## How the model is built

Each operation that changes state in the source is a method with the source's branches and loops (classes `PostgresLoader.Connection`,
`BoundedCache.BoundedTTLCache`, `Orchestration.MetadataRoot`, `Canonicalizer.ErrorList`), proved against a specification function
of the old state. Properties over runs are lemmas about folds of those functions. Crashes, lost connections, broker events, polls
and interleavings are explicit inputs, so that for-all statements range over them. SHA-256, JSON text, float and timestamp
parsing are uninterpreted functions; where a result needs them not to collide or to read back as written, that is a `requires` about
the finitely many values the plan, history, routing or pair of rows at hand contains, never about all values
(`CachedAggregate.Trusted`, `ReplayAgreement.ReadsBack` and `NoCollision`, `RoutingAccounting.EnvelopesReadBack`,
`OrchestrationRuns.NoCollision`, `Identity.TellsApart`). Timestamps are integers, tables are maps keyed by primary key, and
partitions are sequences.

`dafny verify dfyconfig.toml` checks everything.

## Where the code falls short of what one might expect

Each of these is stated as an if-and-only-if or with a concrete input, next to the condition under which the code does deliver.

- A load whose record ends FAILED, or stays RUNNING after a lost connection, can never be repeated: the unique idempotency key refuses
  its manifest for good (`LoadRuns.FailedLoadCannotBeRetried`).
- Two staged lines with one event id and different content are both accepted; the second is silently ignored
  (`LoadRuns.SuccessfulLoadServesItsPayloads`, `LoadWitnesses.SecondContentIsLost`).
- Reloading a manifest is a no-op only if the rows of its gold run add up to the gate; otherwise it is refused
  (`LoadRuns.ReloadExact`, `LoadWitnesses.ReloadRefused`).
- Rebuilding one gold run's summaries is exact if and only if the new rows name that gold run (`LoadRuns.LoadKeepsSummaries`).
- The unfiltered platform summary counts a detection once per gold run and lineage, and reports the latest *first* observation of a
  lineage as the last observation (`SummaryAgreement.DetectionCountExact`, `LoadWitnesses.TwoGoldRunsCountADetectionTwice`,
  `SummaryAgreement.LastObservationExact`, `LoadWitnesses.LastObservationTooEarly`).
- A cached answer may differ from the fresh one for up to ttl (`CachedAggregate.StaleAnswersHappen`).
- A pagination cursor longer than 1024 characters is produced but refused (`Cursor.ResumableExact`).
- The replay verifier compares with Python's equality: it accepts 0 for false, and refuses a faithful artifact in which a preserved
  field is NaN, though not one in which a NaN stands inside a list or object (`ReplayAgreement.ZeroPassesForFalse`, `ReplayAgreement.GeneratedIsAccepted`).
- A direct `execute_stage` call with a wrong or missing upstream breaks the checksum chain for good, and every later DAG run then
  ends in a stage conflict (`OrchestrationRuns.ChainKeptExactly`, `OrchestrationRuns.BrokenLinkIsPermanent`).
- A reconciled producer run may leave a window without any of its records when a partition lies outside `partition_count`
  (`KafkaAccounting.UnreadPartitionsCanDeceive`).
- The failure router can never reconcile a window in which any message lacks a non-empty text `lineage_root_id`, corrupt JSON included,
  because the produced key is `str(None)` (`RoutingAccounting.RoutingExact`).
- The consumer's checks do not ask that every message carries a detection id (`KafkaConsumption.DetectionCarriers`).
- Decimals of more than 28 significant digits can share a normal form (`Identity.LongDecimalsCollide`).
- In Spark a valid row behind an invalid one of the same event id becomes a duplicate, so the id never reaches Silver; null
  `schema_version` and `day_night` pass validation (`SparkClassification.IdReachesSilverExactly`,
  `SparkClassification.ValidExactly`).

## Model

| member | source | states |
|---|---|---|
| PostgresLoader.LoadManifest | src/eo_event_platform/serving/postgres_loader.py:80-116 | the first failing admission check decides the error; admission itself is characterised by LoadRuns.AdmissionExact |
| PostgresLoader.StagePayloads | src/eo_event_platform/serving/postgres_loader.py:119-132 | staging yields every non-blank line of every load artifact, files in path order, and counts them |
| PostgresLoader.InsertArtifactRecords | src/eo_event_platform/serving/postgres_loader.py:178-191 | one record per artifact, the single load artifact's missing row count filled with the gate, refused on a negative count or a repeated key |
| PostgresLoader.RecordRun | src/eo_event_platform/serving/postgres_loader.py:162-192 | the RUNNING record is committed whole or not at all, and refused when the idempotency key is taken |
| PostgresLoader.CheckStaged | src/eo_event_platform/serving/postgres_loader.py:202-212 | count, content conflicts, casts and the foreign key are checked against the open transaction |
| PostgresLoader.Promote | src/eo_event_platform/serving/postgres_loader.py:211-270 | insert-or-ignore, the three rebuilt summaries and the SUCCEEDED record; the row count check cannot fail |
| PostgresLoader.RowCountIsGrowth | src/eo_event_platform/serving/postgres_loader.py:211-215 | the statement's row count is exactly the growth of event_detail |
| PostgresLoader.RebuildSummaries | src/eo_event_platform/serving/postgres_loader.py:217-256 | each summary loses the gold run's rows and regains its group-by |
| PostgresLoader.RunTransaction | src/eo_event_platform/serving/postgres_loader.py:194-279 | commit, or roll back and record FAILED, or neither when the connection is lost |
| PostgresLoader.Load | src/eo_event_platform/serving/postgres_loader.py:146-279 | the committed database and the answer of one load are those of the transaction state machine |
| PostgresLoader.LoadCommand | src/eo_event_platform/serving/postgres_loader.py:297-301 | the command leaves no open transaction behind, whatever load raised |
| PostgresLoader.Connection.Rollback | src/eo_event_platform/serving/postgres_loader.py:273 | a rollback returns to the last committed database |
| LoadRuns.OutcomeShape | src/eo_event_platform/serving/postgres_loader.py:146-279 | a load changes no serving table at all, or commits the whole serving transaction |
| LoadRuns.PromotesExactly | src/eo_event_platform/serving/postgres_loader.py:146-279 | a load promotes if and only if its manifest is admitted, its key and run id are unused, no outside failure strikes, and its lines have the gate's count, castable columns, no content conflict and an intact foreign key |
| LoadRuns.FailedLoadChangesNoServingTable | src/eo_event_platform/serving/postgres_loader.py:272-279 | whatever fails, wherever, all serving tables stay as they were |
| LoadRuns.AdmissionExact | src/eo_event_platform/serving/postgres_loader.py:80-116 | a manifest is admitted if and only if its fields are there, all files match size and checksum, and all row counts reconcile with the gate |
| LoadRuns.InsertIgnoreExact | src/eo_event_platform/serving/postgres_loader.py:18-69 | old rows are untouched, exactly the new staged ids appear, each with the content of its first staged line |
| LoadRuns.RowsAreImmutable | src/eo_event_platform/serving/postgres_loader.py:194-279 | over every run of loads a row of event_detail never changes or disappears |
| LoadRuns.SuccessfulLoadServesItsPayloads | src/eo_event_platform/serving/postgres_loader.py:204-216 | every staged id is served; every line with its own hash if and only if no id has two contents in the staging area |
| LoadRuns.SuccessfulLoadCounts | src/eo_event_platform/serving/postgres_loader.py:202-216 | inserted plus already present equals staged equals expected; inserted counts exactly the ids that were new |
| LoadRuns.LoadKeepsSummaries | src/eo_event_platform/serving/postgres_loader.py:217-256 | a successful load keeps all summaries exact if and only if the lines with new ids name its gold run |
| LoadRuns.SummariesTrackDetail | src/eo_event_platform/serving/postgres_loader.py:194-271 | over every sequence of governed loads, failed and repeated ones included, all three summaries equal the group-by of event_detail |
| LoadRuns.LoadKeepsRecords | src/eo_event_platform/serving/postgres_loader.py:166-192 | a load writes no run record but its own new one, SUCCEEDED exactly when it reports success |
| LoadRuns.FailedLoadCannotBeRetried | infrastructure/postgres/migrations/001_serving_schema.sql:55 | once a load has left an unsuccessful record, every later load of that manifest fails and changes nothing |
| LoadRuns.ReloadExact | src/eo_event_platform/serving/postgres_loader.py:148-160 | a reload after any loads of other gold runs changes nothing, and is an accepted no-op exactly when the gold run's rows add up to the gate |
| ApiRepository.Filters | src/eo_event_platform/api/repository.py:60-70 | one condition per filter that is set |
| ApiRepository.PlatformSummary | src/eo_event_platform/api/repository.py:72-112 | an unfiltered query reads the materialised aggregates, any other aggregates exactly the rows the query selects |
| ApiRepository.SumColumn | src/eo_event_platform/api/repository.py:79-84 | the loop totals a column over all rows of the daily summary |
| ApiRepository.FetchPage | src/eo_event_platform/api/repository.py:155-160 | limit + 1 rows decide whether there is a next cursor, and the boundary row is what it encodes |
| ApiRepository.Lineage | src/eo_event_platform/api/repository.py:132-161 | a bad cursor is an error, an unknown lineage nothing, and otherwise the summary covers all rows its statement saw and the page those the next statement sees |
| ApiRepository.BoundingBox | src/eo_event_platform/api/repository.py:163-195 | a page of exactly the rows inside the envelope, the window and the filters, beyond the cursor |
| SummaryAgreement.CountsAgree | src/eo_event_platform/api/repository.py:78-112 | with exact summaries both paths agree on messages, unique events and every source type |
| SummaryAgreement.TimesAgree | src/eo_event_platform/api/repository.py:86-96 | they agree on first observation and both activity bounds, and on the last observation exactly when some lineage is seen only at the latest time |
| SummaryAgreement.LastObservationExact | src/eo_event_platform/api/repository.py:89 | the latest first observation is the latest observation if and only if some lineage group is all at that time |
| SummaryAgreement.DetectionsAgree | src/eo_event_platform/api/repository.py:87 | the fast detection count is never too low, and right if and only if no detection is spread over two groups |
| SummaryAgreement.DetectionCountExact | src/eo_event_platform/api/repository.py:87 | counting lineage groups counts detections exactly when groups and detections are one to one |
| SummaryAgreement.ReachableDatabasesAgree | src/eo_event_platform/api/repository.py:72-112 | in every database that governed loads reach, the two paths differ at most in detections and last observation |
| SummaryAgreement.FastEqualsScan | src/eo_event_platform/api/repository.py:72-112 | when a lineage root is one detection observed once in one gold run, both paths agree in every field |
| LoadWitnesses.TwoGoldRunsCountADetectionTwice | src/eo_event_platform/api/repository.py:87 | after two governed loads from the empty database the fast path counts two detections where the scan counts one |
| LoadWitnesses.LastObservationTooEarly | src/eo_event_platform/api/repository.py:89 | after one governed load of a lineage observed twice the two paths give different last observations |
| LoadWitnesses.SecondContentIsLost | src/eo_event_platform/serving/postgres_loader.py:204-216 | two lines with one id and different content load successfully, and only the first is served |
| LoadWitnesses.ReloadRefused | src/eo_event_platform/serving/postgres_loader.py:148-160 | a manifest whose one row is already served under another gold run loads once and is refused when it is loaded again |
| Cursor.DecodeEncode | src/eo_event_platform/api/models.py:211-234 | base64url (section 5 of RFC 4648) decodes what it encoded, for all byte strings |
| Cursor.PaddingIsRecoverable | src/eo_event_platform/api/models.py:211-224 | the stripped padding is exactly what decoding adds back |
| Cursor.ResumableExact | src/eo_event_platform/api/models.py:61-63 | a cursor can be sent back and decodes to its row if and only if the event id is not empty and the payload fits in 768 bytes |
| PageWalks.GrowingWalk | src/eo_event_platform/api/repository.py:132-195 | with any limits and while rows are only added, the walk is strictly increasing and, once finished, misses no row present at its start |
| PageWalks.FixedTableWalk | src/eo_event_platform/api/repository.py:132-195 | on a fixed table the walk ends and its pages join to the full ordered result |
| PageWalks.WalkAcrossLoads | src/eo_event_platform/api/repository.py:132-195 | the same with any batches of loads between the requests |
| BoundedCache.Create | src/eo_event_platform/api/cache.py:50-73 | bounds that are not positive or contradict each other give no cache |
| BoundedCache.BoundedTTLCache.Get | src/eo_event_platform/api/cache.py:75-88 | an absent key misses, an expired entry is removed and counted, a live one moves to the end |
| BoundedCache.BoundedTTLCache.Set | src/eo_event_platform/api/cache.py:90-111 | a refused set changes only its counter and leaves the older entry; an accepted one replaces, makes room and appends |
| BoundedCache.BoundedTTLCache.MakeRoom | src/eo_event_platform/api/cache.py:102-108 | the loop ends and removes exactly the shortest oldest-first run after which the value fits |
| BoundedCache.Evictions | src/eo_event_platform/api/cache.py:102-108 | the number of evictions is the least that leaves room |
| BoundedCache.GetKeepsSound | src/eo_event_platform/api/cache.py:75-88 | a get keeps byte accounting, bounds and unique keys |
| BoundedCache.SetKeepsSound | src/eo_event_platform/api/cache.py:90-111 | a set keeps byte accounting, bounds and unique keys |
| CacheHistory.RunIsSound | src/eo_event_platform/api/cache.py:75-124 | after every history total bytes equals the sum of lengths and all bounds hold |
| CacheHistory.HitIsLastSet | src/eo_event_platform/api/cache.py:75-111 | a hit is the value of the last accepted set of that key, strictly before its deadline |
| CacheHistory.EntriesInTouchOrder | src/eo_event_platform/api/cache.py:86-110 | the entry order is the order of last touch |
| CacheHistory.EvictedBeforeResidents | src/eo_event_platform/api/cache.py:102-108 | an evicted key not stored again was last touched before every resident key |
| CacheHistory.CountersReconcile | src/eo_event_platform/api/cache.py:78-108 | hits plus misses equals gets; entries plus evictions plus expirations equals accepted sets on absent keys |
| CachedAggregate.BypassOfJoinedHeaders | src/eo_event_platform/api/cache.py:139-143 | joining headers bypasses exactly when one of them does |
| CachedAggregate.KeyDetermines | src/eo_event_platform/api/cache.py:126-136 | a key determines its namespace and its digest |
| CachedAggregate.AggregateOver | src/eo_event_platform/api/app.py:67-85 | over any backend, raising ones included, a bypassed request makes no cache call and every request ends with a decodable hit or the loader's result |
| CachedAggregate.Aggregate | src/eo_event_platform/api/app.py:67-85 | the response and the cache's new state of one request |
| CachedAggregate.ServeIsLookAndKeep | src/eo_event_platform/api/app.py:67-85 | a request served without interruption is its lookup followed by its store, unless the lookup answered it |
| CachedAggregate.AnswersAreFreshOrRecent | src/eo_event_platform/api/app.py:67-85 | over any interleaving of other requests' lookups and stores an answer is the fresh load, or one stored for the same namespace and filters less than ttl ago |
| CachedAggregate.ConstantLoaderHidesTheCache | src/eo_event_platform/api/app.py:67-85 | over any such interleaving the cache cannot be observed when the loader depends on the request alone |
| CachedAggregate.StaleAnswersHappen | src/eo_event_platform/api/app.py:67-85 | a second request within ttl gets what the first one loaded, whatever its own loader would give |
| ReplayRecords.PyEqReflexive | src/eo_event_platform/replay/verify.py:91-96 | a JSON value equals its copy, in Python's sense, if and only if it is not itself NaN; a NaN inside a list or object compares by identity |
| ReplayRecords.ScheduleIsTruncation | src/eo_event_platform/replay/generator.py:54-57 | truncated schedule times advance by exactly one interval per record |
| ReplayRecords.DivisionInverts | src/eo_event_platform/replay/verify.py:61-62 | the verifier's floor division and remainder are the generator's iteration and index |
| ReplayRecords.SequenceBijection | src/eo_event_platform/replay/generator.py:191-195 | (iteration, index) and the sequence number are inverse bijections over the whole plan |
| ReplayGenerator.LoadOriginalEvents | src/eo_event_platform/replay/generator.py:60-98 | a source is admitted if and only if checksum, count, classification, identities and uniqueness hold |
| ReplayGenerator.OriginalsAreSorted | src/eo_event_platform/replay/generator.py:97 | the admitted originals are a sorted permutation of the source with distinct ids |
| ReplayGenerator.WriteAll | src/eo_event_platform/replay/generator.py:190-222 | the nested loops write the plan's records in sequence order, with their bytes, ids and schedule boundaries |
| ReplayGenerator.GenerateReplay | src/eo_event_platform/replay/generator.py:141-267 | a plan yields its whole artifact and manifest if and only if it is valid, its source is admitted and its event ids are distinct |
| ReplayVerifier.ExpectedIsOverwritten | src/eo_event_platform/replay/verify.py:72-90 | the verifier's own table of expected values is the generator's |
| ReplayVerifier.CheckRecord | src/eo_event_platform/replay/verify.py:72-98 | the three field checks together compare the record with the one the generator builds |
| ReplayVerifier.ScanArtifact | src/eo_event_platform/replay/verify.py:51-101 | the record loop succeeds if and only if every line agrees, and then holds its lines' counts and stamps |
| ReplayVerifier.ScanOfAgreeingLines | src/eo_event_platform/replay/verify.py:51-101 | the loop over agreeing lines has counted every detection of the plan so far and holds the plan's first and last stamp |
| ReplayVerifier.TalliedCounts | src/eo_event_platform/replay/verify.py:98-106 | counting one record at a time gives every detection met so far the number of its rounds |
| ReplayVerifier.CountsOfPlan | src/eo_event_platform/replay/verify.py:105-106 | after a whole plan every detection count is the replay factor, so that check cannot fail |
| ReplayVerifier.VerifyManifest | src/eo_event_platform/replay/verify.py:28-133 | a manifest is verified if and only if plan, source, every record and all totals match |
| ReplayAgreement.AcceptedIsThePlan | src/eo_event_platform/replay/verify.py:51-104 | whatever is accepted is, record for record and field for field, the generator's sequence for the plan, up to Python's equality |
| ReplayAgreement.GeneratedIsAccepted | src/eo_event_platform/replay/generator.py:141-267 | the verifier accepts a generated artifact and manifest if and only if no preserved field is NaN |
| ReplayAgreement.ZeroPassesForFalse | src/eo_event_platform/replay/verify.py:91-93 | an artifact with 0 for false in any one record, and a manifest of its bytes, is accepted |
| ReplayAgreement.EventIdsAreUnique | src/eo_event_platform/replay/verify.py:121 | without a hash collision within the plan all its event ids differ |
| ReplayAgreement.EveryDetectionOccursFactorTimes | src/eo_event_platform/replay/verify.py:105-106 | every original occurs at exactly replay_factor sequence numbers |
| ReplayAgreement.AcceptedScheduleIncreases | src/eo_event_platform/replay/verify.py:64-66 | the stamps of an accepted artifact name strictly increasing milliseconds |
| Orchestration.MetadataRoot.Initialize | src/eo_event_platform/orchestration/runtime.py:105-151 | a new manifest, an existing one joined by a new Airflow run, or a refusal that writes nothing |
| Orchestration.MetadataRoot.ExecuteStage | src/eo_event_platform/orchestration/runtime.py:210-279 | refusal, reuse of a success, or one more attempt whose receipt and status are written together |
| Orchestration.MetadataRoot.FinalizeRun | src/eo_event_platform/orchestration/runtime.py:282-298 | a manifest is finalised only with a successful verification and all stages succeeded |
| OrchestrationRuns.ReceiptsAreConsistent | src/eo_event_platform/orchestration/runtime.py:233-256 | over every history of calls each success receipt holds an output of its own stage and upstream, and the checksum of that output |
| OrchestrationRuns.ReachableManifests | src/eo_event_platform/orchestration/runtime.py:210-298 | under any calls with any arguments and crashes, successes form a prefix, a failed receipt stands only at its frontier, FAILED and SUCCEEDED mean exactly that |
| OrchestrationRuns.LaterCallsKeep | src/eo_event_platform/orchestration/runtime.py:226-231 | no later call changes a success receipt; a finalised manifest gains only run ids, rerun events and times |
| OrchestrationRuns.AttemptsCountReceipts | src/eo_event_platform/orchestration/runtime.py:233-279 | attempt counts the receipts ever written for its stage, of which at most one is a success |
| OrchestrationRuns.ChainKeptExactly | src/eo_event_platform/orchestration/runtime.py:226-256 | a written receipt keeps the checksum chain if and only if the caller passed the predecessor's output checksum |
| OrchestrationRuns.MissingUpstreamBreaksTheChain | src/eo_event_platform/orchestration/runtime.py:226 | leaving the upstream out at a later stage breaks the chain |
| OrchestrationRuns.BrokenLinkIsPermanent | src/eo_event_platform/orchestration/runtime.py:228-231 | after a wrongly linked success every execution with the right upstream is a conflict, for ever |
| OrchestrationRuns.InitializeExact | src/eo_event_platform/orchestration/runtime.py:123-139 | an existing run is refused if and only if the pipeline revision differs; a known Airflow run id writes nothing |
| DagRuns.DagRunsKeepTheChain | dags/nasa_eo_batch_vertical_slice.py:82-91 | with any interleaving, retries and crashes of DAG runs, every receipt names its predecessor's output checksum, ROOT first |
| DagRuns.NoTaskIsRefused | dags/nasa_eo_batch_vertical_slice.py:61-67 | a started stage never meets a conflict or a missing predecessor: it returns what the manifest holds or its own work failed; finalising always succeeds |
| DagRuns.StagesSucceedOnce | src/eo_event_platform/orchestration/runtime.py:226-279 | over all DAG runs each stage of a run id is recorded as a success at most once |
| DagRuns.RerunsOfAFinishedRun | src/eo_event_platform/orchestration/runtime.py:123-139 | rerunning the DAG on a finalised manifest changes run ids, rerun events and times alone |
| DagRuns.IntegrationIsDeterministic | src/eo_event_platform/orchestration/runtime.py:162-178 | under the integration profile every output checksum is a function of the run's identity, whatever failed or was repeated |
| KafkaProducer.PartitionWatermarks | src/eo_event_platform/streaming/kafka/producer.py:30-46 | each offset is the length of its partition at the moment it is read |
| KafkaProducer.SendAll | src/eo_event_platform/streaming/kafka/producer.py:84-114 | exactly the lines within the limit are sent, keyed by lineage root, or the first unpublishable one stops the run |
| KafkaProducer.PublishJsonl | src/eo_event_platform/streaming/kafka/producer.py:49-169 | a manifest is returned if and only if limit, checksum, partitions and lines are good and the counts reconcile |
| KafkaLog.HappenAllFits | src/eo_event_platform/streaming/kafka/producer.py:78-82 | through all broker events each record has at most one place and delivered_by_partition counts the acknowledged ones |
| KafkaLog.ReadIsWindow | src/eo_event_platform/streaming/kafka/consumer.py:61-74 | a finished read of the expected count takes every coordinate of the window once and nothing else |
| KafkaLog.LaterAppendsAreIgnored | src/eo_event_platform/streaming/kafka/consumer.py:70-71 | a read at any later time takes the window's messages as they stood when it was recorded |
| KafkaAccounting.ReconciledExactly | src/eo_event_platform/streaming/kafka/producer.py:116-130 | a run reconciles if and only if all records were acknowledged and the window spans as many offsets |
| KafkaAccounting.ReconciledWindowHoldsTheRecords | src/eo_event_platform/streaming/kafka/producer.py:116-130 | a reconciled window holds exactly the attempted records, each once, if and only if delivered_by_partition names no unread partition |
| KafkaAccounting.CoveredTopic | src/eo_event_platform/streaming/kafka/producer.py:116-130 | when all partitions are read, reconciled means exactly: all acknowledged and the window is the records, whoever else writes |
| KafkaAccounting.SoleWriter | src/eo_event_platform/streaming/kafka/producer.py:116-130 | for a sole writer a reconciled window holds exactly the records |
| KafkaAccounting.UnreadPartitionsCanDeceive | src/eo_event_platform/streaming/kafka/producer.py:119-130 | otherwise a reconciled window can hold none of them |
| KafkaConsumer.ConsumeProducerRun | src/eo_event_platform/streaming/kafka/consumer.py:20-163 | success means a reconciled manifest, a finished read, and checks that hold of the tally of all its messages |
| KafkaConsumption.ChecksExact | src/eo_event_platform/streaming/kafka/consumer.py:105-121 | the quality checks pass if and only if the messages are complete in ids, keys, source, detections, sequence numbers and iterations |
| KafkaConsumption.ReconciledConsumption | src/eo_event_platform/streaming/kafka/consumer.py:61-121 | a reconciled consumption has read the whole window once, and its messages are complete |
| KafkaConsumption.SequenceNumberOnce | src/eo_event_platform/streaming/kafka/consumer.py:118 | sequence numbers are a bijection from messages onto 0 to n - 1 |
| KafkaConsumption.EventIdsDiffer | src/eo_event_platform/streaming/kafka/consumer.py:111-113 | event ids are pairwise distinct and every key is the lineage root |
| KafkaConsumption.DetectionCarriers | src/eo_event_platform/streaming/kafka/consumer.py:116-117 | messages with a detection id number detections times factor, and are all messages exactly when that is n |
| KafkaConsumption.ProducedThenConsumed | src/eo_event_platform/streaming/kafka/consumer.py:31-74 | a reconciled run followed by a finished read, at any later time, takes exactly the run's records, each once |
| FailureRouter.ProcessWithBoundedAttempts | src/eo_event_platform/streaming/kafka/failure_router.py:58-70 | success at the first attempt, or failure after exactly max_attempts; refused when that is not positive |
| FailureRouter.Decide | src/eo_event_platform/streaming/kafka/failure_router.py:212-248 | a message is rejected, passed or sent to the DLQ with the right envelope |
| FailureRouter.VerifyRoutedRange | src/eo_event_platform/streaming/kafka/failure_router.py:104-156 | the verification tallies every message of the routed window |
| FailureRouter.RouteFailures | src/eo_event_platform/streaming/kafka/failure_router.py:159-325 | the routing manifest: the source read, both topics' accounting and both verifications |
| RoutingAccounting.FateExact | src/eo_event_platform/streaming/kafka/failure_router.py:221-248 | every message has exactly one fate: REJECTED iff it has validation errors, DLQ iff valid and failing all attempts, passed otherwise |
| RoutingAccounting.ValidExactly | src/eo_event_platform/streaming/kafka/failure_router.py:36-55 | no validation error arises if and only if the nine texts, version, classification, coordinates and key are all good |
| RoutingAccounting.FatesAddUp | src/eo_event_platform/streaming/kafka/failure_router.py:287-288 | passed, rejected and DLQ messages add up to the window |
| RoutingAccounting.KeyAgreesExactly | src/eo_event_platform/streaming/kafka/failure_router.py:255 | the produced key matches its envelope if and only if the lineage root is a non-empty text |
| RoutingAccounting.VerdictExact | src/eo_event_platform/streaming/kafka/failure_router.py:141-155 | verifying the routed messages in any order passes if and only if all keys agree |
| RoutingAccounting.RoutingExact | src/eo_event_platform/streaming/kafka/failure_router.py:287-293 | routing reconciles if and only if both output windows hold exactly their routed messages, all acknowledged, and every source message carries a lineage root |
| RoutingAccounting.RoutedOnce | src/eo_event_platform/streaming/kafka/failure_router.py:250-263 | a routed coordinate stands at exactly one place of its output window |
| RoutingAccounting.PublishedWindowsCarryLineage | src/eo_event_platform/streaming/kafka/producer.py:92-99 | messages of published windows always carry a lineage root that is their key |
| Identity.NormalizedReadsBack | src/eo_event_platform/events/identity.py:23-33 | exactly the finite decimals are normalised, and every output is a decimal again |
| Identity.NormalizeKeepsTheNumber | src/eo_event_platform/events/identity.py:33 | the output denotes the same number if and only if the input has at most 28 significant digits |
| Identity.RoundingIsNearestEven | src/eo_event_platform/events/identity.py:33 | longer inputs are rounded to the nearest 28 digits, ties to even |
| Identity.EqualOutputsExactly | src/eo_event_platform/events/identity.py:23-33 | within 28 digits outputs are equal if and only if the numbers are |
| Identity.NormalizeIdempotent | src/eo_event_platform/events/identity.py:23-33 | normalising twice is normalising once |
| Identity.LongDecimalsCollide | src/eo_event_platform/events/identity.py:33 | two different 30-digit numbers share a normal form |
| Identity.TimeAcceptedExactly | src/eo_event_platform/events/identity.py:36-46 | one to four digits are a time if and only if their number reads as HHMM of a clock |
| Identity.TimesAgreeExactly | src/eo_event_platform/events/identity.py:36-46 | times have equal normal forms if and only if their numbers are equal |
| Identity.TimeIdempotent | src/eo_event_platform/events/identity.py:36-46 | a normal form has four characters and is its own normal form |
| Identity.RecordIdsAgreeExactly | src/eo_event_platform/events/identity.py:49-63 | without collisions record ids agree if and only if trimmed fields, times and coordinates agree |
| SparkClassification.ValidExactly | src/eo_event_platform/spark/batch/bronze_to_silver.py:29-134 | validity in three-valued logic, restated over nulls without it |
| SparkClassification.OutputsPartition | src/eo_event_platform/spark/batch/bronze_to_silver.py:168-208 | the three outputs partition the input |
| SparkClassification.AcceptedExactly | src/eo_event_platform/spark/batch/bronze_to_silver.py:137-165 | a row is accepted if and only if it is valid and first of its event id in window order, however ties fall |
| SparkClassification.IdReachesSilverExactly | src/eo_event_platform/spark/batch/bronze_to_silver.py:146-161 | an id reaches Silver if its first row is valid, and otherwise all its valid rows are duplicates |
| SparkClassification.ValidRowBehindInvalidOne | src/eo_event_platform/spark/batch/bronze_to_silver.py:151-161 | a concrete pair of rows of which nothing reaches Silver |
| SparkClassification.SilverIdsAreUnique | src/eo_event_platform/gold/build.py:96 | Silver ids are present and distinct, so Gold's guard never fires on Silver |
| Canonicalizer.ErrorList.ParseRequiredFloat | src/eo_event_platform/events/canonicalization.py:367-383 | a finite number, or exactly one more error |
| Canonicalizer.ErrorList.ParseOptionalFloat | src/eo_event_platform/events/canonicalization.py:386-410 | a measurement may be absent; a bad or out-of-domain one adds its error |
| Canonicalizer.ErrorList.ParseEventTimestamp | src/eo_event_platform/events/canonicalization.py:343-353 | date and normalised time make a timestamp, or add one error |
| Canonicalizer.CanonicalizeRow | src/eo_event_platform/events/canonicalization.py:225-340 | a row is rejected with exactly its errors, or accepted with one id in all four identity fields |
| Canonicalizer.CanonicalizeRows | src/eo_event_platform/events/canonicalization.py:138-177 | the row loop fills the three lists by the fate of each row, and fails exactly when their total is not the promised count |
| FirstOccurrences.ListsPartitionTheRows | src/eo_event_platform/events/canonicalization.py:151-170 | accepted are exactly the first valid rows of each id in file order, and the lists partition the rows |
| FirstOccurrences.RowAcceptedExactly | src/eo_event_platform/events/canonicalization.py:225-340 | a row is accepted if and only if coordinates, texts, time and measurements are good and its identity can be built |
| FirstOccurrences.AcceptedIdsDiffer | src/eo_event_platform/events/canonicalization.py:154-170 | accepted ids are pairwise distinct |
| FirstOccurrences.EveryValidIdIsAccepted | src/eo_event_platform/events/canonicalization.py:154-170 | every valid row's id is accepted from its first valid row |
| FirstOccurrences.AcceptedIsValidExactly | src/eo_event_platform/events/canonicalization.py:299-308 | accepted events have equal identities and are valid for Spark if and only if the run's names are not blank and the event is not after ingestion |
| FirstOccurrences.AcceptedListHasNoDuplicates | src/eo_event_platform/spark/batch/bronze_to_silver.py:137-165 | classifying the accepted list never yields a duplicate |
| FirstOccurrences.AcceptedReachSilverExactly | src/eo_event_platform/spark/batch/bronze_to_silver.py:137-189 | accepted events of a run reach Silver if and only if the run is sound for them |

## Left out

- PostgresLoader.Promote: does not write `quality.load_quality_metric`, refresh statistics or keep durations, which no modelled reader uses.
- PostgresLoader.Load: one loader at a time; concurrent sessions and isolation levels are not part of this model.
- PostgresLoader.StagePayloads: paths are ordered as text; the component-wise order of file-system paths is not modelled.
- ApiRepository.PlatformSummary: text is compared by code point, as under the "C" collation; other collations are not modelled.
- ApiRepository.BoundingBox: the geometry is a predicate on coordinates; range checks of the request model and the daily listing are left out.
- Cursor.ResumableExact: the JSON payload and timestamps are abstract; how lenient decoding treats characters outside the alphabet is not modelled.
- BoundedCache.BoundedTTLCache.Get: the lock is not modelled, each call being one step; the clock and the deadline are integers.
- CachedAggregate.AggregateOver: response validation and JSON are an abstract codec that may refuse a payload.
- ReplayRecords.ScheduleIsTruncation: dates beyond the calendar's last year and the text form of a timestamp are not modelled.
- ReplayGenerator.GenerateReplay: the plan's checksum is 64 plain hexadecimal digits; signs, prefixes and underscores that `int(text, 16)` also reads are not modelled, nor are temporary files and failure manifests.
- Orchestration.MetadataRoot.ExecuteStage: the flag that marks a returned receipt as reused, durations and error types are not kept; a manifest write happens or does not; two executions never overlap inside one call.
- Orchestration.DoWork: the local command is a given result; its environment variable and process are not modelled.
- KafkaLog.HappenAllFits: a record is appended at most once, as an idempotent producer guarantees; retries inside the client, compaction and transactions are left out.
- KafkaProducer.SendAll: message headers are not kept.
- KafkaConsumer.ConsumeProducerRun: keys are text, a missing one being empty; undecodable keys and the measured times are left out.
- FailureRouter.RouteFailures: the run id and the time written into envelopes are left out, and reason codes are a set because the source sorts them.
- Identity.NormalizedReadsBack: exponents beyond the decimal context's limits, digits and white space outside ASCII are not modelled.
- Identity.RecordIdsAgreeExactly: rows are given with all identity fields; a missing one is an error in Canonicalizer.SourceRecordId.
- SparkClassification.ValidExactly: measurements are finite; Spark's order of NaN, parsing of JSON and timestamps, and the projected columns are left out.
- Canonicalizer.CanonicalizeRows: CSV reading, rows shorter than the header, manifests and output files are left out.
- HTTP extraction, the API's routing, the dashboard, AWS templates, benchmarks and configuration: input, output or measurement only.
- Structured Streaming deduplication: its watermark belongs to Spark, not to this code.
- `scale_gate_selection.py`, `serving/verify.py`, `verify_silver.py`, `common/metadata.py`: they repeat counting arguments proved above.
