/** Run manifests of the batch DAG: initialising a run, executing its stages, and finalising it. */
module Orchestration {
  import opened Common

  // ----- parameters and identity -----

  /** The processing stages, named by their position in the fixed stage order; the last one is verification. */
  const STAGES: nat := 7

  const VERIFICATION: nat := 6

  const MAX_GATE_SIZE := 1_000_000
  const MAX_INTEGRATION_GATE_SIZE := 100

  type Digest = string

  /** What stands for the upstream checksum of the first stage. */
  const ROOT: Digest := "ROOT"

  datatype RunParameters = RunParameters(gateSize: int, sourceDetectionCount: int, replayFactor: int,
                                         executionProfile: string, sourceDate: string)

  datatype RunIdentity = RunIdentity(runId: Digest, logicalDate: string, parameters: RunParameters, pipelineRevision: string)

  datatype Output =
    | IntegrationOutput(stage: nat, recordCount: int, upstream: Digest, artifact: Digest)
    | LocalOutput(stage: nat, upstream: Digest, fingerprint: Digest, printed: map<string, string>)

  /** What is computed elsewhere: the three SHA-256 digests of canonical JSON, and whether text is an ISO date. */
  datatype Platform = Platform(
    identity: (string, RunParameters) -> Digest,
    artifact: (Digest, nat, int, Digest) -> Digest,
    checksum: Output -> Digest,
    isIsoDate: string -> bool)

  predicate ValidParameters(p: Platform, r: RunParameters)
  {
    && 1 <= r.gateSize <= MAX_GATE_SIZE
    && 1 <= r.sourceDetectionCount <= 10_000
    && 1 <= r.replayFactor <= 100
    && r.sourceDetectionCount * r.replayFactor == r.gateSize
    && (r.executionProfile == "local" || r.executionProfile == "integration")
    && (r.executionProfile == "integration" ==> r.gateSize <= MAX_INTEGRATION_GATE_SIZE)
    && p.isIsoDate(r.sourceDate)
  }

  // ----- manifests -----

  datatype StageEnd = Success(output: Output, checksum: Digest) | Failure(error: string)

  datatype Receipt = Receipt(stage: nat, attempt: nat, startedAt: int, completedAt: int, upstream: Digest, end: StageEnd)

  datatype Status = RUNNING | FAILED | SUCCEEDED

  datatype Rerun = Rerun(airflowRunId: string, recordedAt: int)

  datatype Reconciliation = Reconciliation(expectedStageCount: nat, successfulStageCount: nat, recordCount: int, verified: bool)

  datatype Manifest = Manifest(identity: RunIdentity, airflowRunIds: seq<string>, reruns: seq<Rerun>,
                               createdAt: int, updatedAt: int, status: Status, stages: map<nat, Receipt>,
                               completedAt: Option<int>, reconciliation: Option<Reconciliation>)

  /** The manifest files under the metadata root, by the run id in their path. */
  type Manifests = map<Digest, Manifest>

  predicate Succeeded(m: Manifest, stage: nat)
  {
    stage in m.stages && m.stages[stage].end.Success?
  }

  // ----- calls -----

  /** What initialize_run hands on: where the manifest is, the run's id, and its parameters. */
  datatype Context = Context(path: Digest, runId: Digest, parameters: RunParameters)

  /** The upstream argument: absent, a mapping with an output checksum, or a mapping without one. */
  datatype Upstream = Absent | Carries(checksum: Digest) | NoChecksum

  /** What one execution meets: the test switch, the local command's result, and the clock before and after. */
  datatype Work = Work(failForTest: bool, command: Result<(Digest, map<string, string>), string>, startedAt: int, completedAt: int)

  /** The verification argument of finalize_run: does it name that stage, and does it say it succeeded? */
  datatype Verification = Verification(stage: string, status: string)

  datatype RunError =
    | InvalidParameters | IdentityConflict | NoManifest | IdentityMismatch | UnknownStage | UpstreamNotSuccessful
    | UpstreamWithoutChecksum | StageConflict | StageFailed | VerificationNotSuccessful | StagesNotSuccessful

  datatype Answer<T> = Answer(manifests: Manifests, result: Result<T, RunError>)

  // ----- what the calls do -----

  function InitializeOutcome(p: Platform, store: Manifests, airflowRunId: string, logicalDate: string, r: RunParameters,
                             revision: string, now: int): Answer<Context>
  {
    if !ValidParameters(p, r) then Answer(store, Err(InvalidParameters)) else
      var id := p.identity(logicalDate, r);
      var identity := RunIdentity(id, logicalDate, r, revision);
      if id in store && store[id].identity != identity then Answer(store, Err(IdentityConflict))
      else Answer(store[id := Joined(if id in store then Some(store[id]) else None, identity, airflowRunId, now)], Ok(Context(id, id, r)))
  }

  /** The manifest once this Airflow run has joined it. */
  function Joined(existing: Option<Manifest>, identity: RunIdentity, airflowRunId: string, now: int): Manifest
  {
    match existing
    case None => Manifest(identity, [airflowRunId], [], now, now, RUNNING, map[], None, None)
    case Some(m) =>
      if airflowRunId in m.airflowRunIds then m
      else m.(airflowRunIds := m.airflowRunIds + [airflowRunId], reruns := m.reruns + [Rerun(airflowRunId, now)], updatedAt := now)
  }

  function UpstreamChecksum(upstream: Upstream): Digest
    requires !upstream.NoChecksum?
  {
    if upstream.Absent? then ROOT else upstream.checksum
  }

  /** How the stage's own work ends. */
  function WorkEnd(p: Platform, c: Context, stage: nat, upstream: Digest, w: Work): StageEnd
  {
    if w.failForTest then Failure("controlled failure")
    else if c.parameters.executionProfile == "integration" then
      var output := IntegrationOutput(stage, c.parameters.gateSize, upstream, p.artifact(c.runId, stage, c.parameters.gateSize, upstream));
      Success(output, p.checksum(output))
    else match w.command
      case Err(e) => Failure(e)
      case Ok(done) =>
        var output := LocalOutput(stage, upstream, done.0, done.1);
        Success(output, p.checksum(output))
  }

  /** The error that stops an execution before any work, or None when it goes ahead or reuses a success. */
  function Refusal(m: Manifest, stage: nat, upstream: Upstream): Option<RunError>
  {
    if stage > 0 && !Succeeded(m, stage - 1) then Some(UpstreamNotSuccessful)
    else if upstream.NoChecksum? then Some(UpstreamWithoutChecksum)
    else if Succeeded(m, stage) && m.stages[stage].upstream != UpstreamChecksum(upstream) then Some(StageConflict)
    else None
  }

  /** Does the execution do work and write a receipt? */
  predicate Records(m: Manifest, stage: nat, upstream: Upstream)
  {
    Refusal(m, stage, upstream).None? && !Succeeded(m, stage)
  }

  function NewReceipt(p: Platform, m: Manifest, c: Context, stage: nat, upstream: Upstream, w: Work): Receipt
    requires !upstream.NoChecksum?
  {
    Receipt(stage, if stage in m.stages then m.stages[stage].attempt + 1 else 1, w.startedAt, w.completedAt,
            UpstreamChecksum(upstream), WorkEnd(p, c, stage, UpstreamChecksum(upstream), w))
  }

  /** The manifest after the receipt is written. */
  function WithReceipt(m: Manifest, r: Receipt): Manifest
  {
    m.(stages := m.stages[r.stage := r], status := if r.end.Success? then RUNNING else FAILED, updatedAt := r.completedAt)
  }

  /** The manifest after an execution, refused and reusing ones included. */
  function Executed(p: Platform, m: Manifest, c: Context, stage: nat, upstream: Upstream, w: Work): Manifest
  {
    if Records(m, stage, upstream) then WithReceipt(m, NewReceipt(p, m, c, stage, upstream, w)) else m
  }

  function ExecuteResult(p: Platform, m: Manifest, c: Context, stage: nat, upstream: Upstream, w: Work): Result<Receipt, RunError>
  {
    if Refusal(m, stage, upstream).Some? then Err(Refusal(m, stage, upstream).value)
    else if Succeeded(m, stage) then Ok(m.stages[stage])
    else
      var r := NewReceipt(p, m, c, stage, upstream, w);
      if r.end.Success? then Ok(r) else Err(StageFailed)
  }

  /** The manifest a context leads to, or the error met on the way. */
  function LoadContext(store: Manifests, c: Context): Result<Manifest, RunError>
  {
    if c.path !in store then Err(NoManifest)
    else if store[c.path].identity.runId != c.runId then Err(IdentityMismatch)
    else Ok(store[c.path])
  }

  function ExecuteOutcome(p: Platform, store: Manifests, c: Context, stage: nat, upstream: Upstream, w: Work): Answer<Receipt>
  {
    if stage >= STAGES then Answer(store, Err(UnknownStage)) else
      match LoadContext(store, c)
      case Err(e) => Answer(store, Err(e))
      case Ok(m) => Answer(store[c.path := Executed(p, m, c, stage, upstream, w)], ExecuteResult(p, m, c, stage, upstream, w))
  }

  predicate AllSucceeded(m: Manifest)
  {
    forall i: nat :: i < STAGES ==> Succeeded(m, i)
  }

  function Finalized(m: Manifest, now: int): Manifest
  {
    m.(status := SUCCEEDED, completedAt := Some(now), updatedAt := now,
       reconciliation := Some(Reconciliation(STAGES, STAGES, m.identity.parameters.gateSize, true)))
  }

  function FinalizeOutcome(store: Manifests, c: Context, v: Verification, now: int): Answer<Manifest>
  {
    match LoadContext(store, c)
    case Err(e) => Answer(store, Err(e))
    case Ok(m) =>
      if v != Verification("verification", "SUCCEEDED") then Answer(store, Err(VerificationNotSuccessful))
      else if !AllSucceeded(m) then Answer(store, Err(StagesNotSuccessful))
      else Answer(store[c.path := Finalized(m, now)], Ok(Finalized(m, now)))
  }

  // ----- the calls themselves -----

  /** The metadata root. Each write replaces one manifest file atomically. */
  class MetadataRoot {
    var manifests: Manifests

    constructor ()
      ensures manifests == map[]
    {
      manifests := map[];
    }

    method Initialize(p: Platform, airflowRunId: string, logicalDate: string, r: RunParameters, revision: string, now: int)
      returns (result: Result<Context, RunError>)
      modifies this
      ensures Answer(manifests, result) == InitializeOutcome(p, old(manifests), airflowRunId, logicalDate, r, revision, now)
    {
      if !ValidParameters(p, r) {
        return Err(InvalidParameters);
      }
      var id := p.identity(logicalDate, r);
      var identity := RunIdentity(id, logicalDate, r, revision);
      if id in manifests {
        var existing := manifests[id];
        if existing.identity != identity {
          return Err(IdentityConflict);
        }
        if airflowRunId !in existing.airflowRunIds {
          existing := existing.(airflowRunIds := existing.airflowRunIds + [airflowRunId]);
          existing := existing.(reruns := existing.reruns + [Rerun(airflowRunId, now)]);
          existing := existing.(updatedAt := now);
          manifests := manifests[id := existing];
        } else {
          assert manifests == manifests[id := existing];
        }
        return Ok(Context(id, id, r));
      }
      manifests := manifests[id := Manifest(identity, [airflowRunId], [], now, now, RUNNING, map[], None, None)];
      return Ok(Context(id, id, r));
    }

    method ExecuteStage(p: Platform, c: Context, stage: nat, upstream: Upstream, w: Work) returns (result: Result<Receipt, RunError>)
      modifies this
      ensures Answer(manifests, result) == ExecuteOutcome(p, old(manifests), c, stage, upstream, w)
    {
      if stage >= STAGES {
        return Err(UnknownStage);
      }
      var loaded := LoadContext(manifests, c);
      if loaded.Err? {
        return Err(loaded.error);
      }
      var manifest := loaded.value;
      assert manifests[c.path := manifest] == manifests;
      if stage > 0 && !Succeeded(manifest, stage - 1) {
        return Err(UpstreamNotSuccessful);
      }
      if upstream.NoChecksum? {
        return Err(UpstreamWithoutChecksum);
      }
      var checksum := if upstream.Absent? then ROOT else upstream.checksum;
      if Succeeded(manifest, stage) {
        if manifest.stages[stage].upstream != checksum {
          return Err(StageConflict);
        }
        return Ok(manifest.stages[stage]);
      }
      var attempt := if stage in manifest.stages then manifest.stages[stage].attempt + 1 else 1;
      var end := DoWork(p, c, stage, checksum, w);
      var receipt := Receipt(stage, attempt, w.startedAt, w.completedAt, checksum, end);
      manifest := manifest.(stages := manifest.stages[stage := receipt]);
      manifest := manifest.(status := if end.Success? then RUNNING else FAILED, updatedAt := w.completedAt);
      manifests := manifests[c.path := manifest];
      return if end.Success? then Ok(receipt) else Err(StageFailed);
    }

    method FinalizeRun(c: Context, v: Verification, now: int) returns (result: Result<Manifest, RunError>)
      modifies this
      ensures Answer(manifests, result) == FinalizeOutcome(old(manifests), c, v, now)
    {
      var loaded := LoadContext(manifests, c);
      if loaded.Err? {
        return Err(loaded.error);
      }
      var manifest := loaded.value;
      if v.stage != "verification" || v.status != "SUCCEEDED" {
        return Err(VerificationNotSuccessful);
      }
      if exists i: nat :: i < STAGES && !Succeeded(manifest, i) {
        return Err(StagesNotSuccessful);
      }
      manifest := manifest.(status := SUCCEEDED, completedAt := Some(now), updatedAt := now);
      manifest := manifest.(reconciliation := Some(Reconciliation(STAGES, STAGES, manifest.identity.parameters.gateSize, true)));
      manifests := manifests[c.path := manifest];
      return Ok(manifest);
    }
  }

  /** The body of the stage: any exception in it becomes a failure that execute_stage records. */
  method DoWork(p: Platform, c: Context, stage: nat, upstream: Digest, w: Work) returns (end: StageEnd)
    ensures end == WorkEnd(p, c, stage, upstream, w)
  {
    if w.failForTest {
      return Failure("controlled failure");
    }
    var output: Output;
    if c.parameters.executionProfile == "integration" {
      var count := c.parameters.gateSize;
      output := IntegrationOutput(stage, count, upstream, p.artifact(c.runId, stage, count, upstream));
    } else {
      if w.command.Err? {
        return Failure(w.command.error);
      }
      output := LocalOutput(stage, upstream, w.command.value.0, w.command.value.1);
    }
    return Success(output, p.checksum(output));
  }
}
