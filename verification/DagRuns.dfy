/** Runs of the batch DAG over the same manifests: any number of them, interleaved task by task, retried and crashing. */
module DagRuns {
  import opened Common
  import opened Orchestration
  import opened OrchestrationRuns

  // ----- the DAG as steps -----

  /** A task's process may die before the manifest is replaced, or after it but before its return value is stored. */
  datatype Fate = Completes | DiesBeforeWrite | DiesAfterWrite

  /** One Airflow run: what its tasks have returned so far. */
  datatype DagRun = DagRun(context: Context, receipts: map<nat, Receipt>)

  datatype Dag = Dag(manifests: Manifests, runs: map<string, DagRun>)

  /** One task instance of an Airflow run is executed, for the first time, as a retry, or again. */
  datatype Task =
    | InitializeTask(airflowRunId: string, logicalDate: string, parameters: RunParameters, revision: string, at: int)
    | StageTask(airflowRunId: string, stage: nat, work: Work)
    | FinalizeTask(airflowRunId: string, at: int)

  datatype Event = Event(task: Task, fate: Fate)

  /** Airflow executes a task only once those it depends on have returned in the same run. */
  predicate Ready(d: Dag, t: Task)
  {
    match t
    case InitializeTask(_, _, _, _, _) => true
    case StageTask(a, stage, _) => a in d.runs && stage < STAGES && (stage > 0 ==> stage - 1 in d.runs[a].receipts)
    case FinalizeTask(a, _) => a in d.runs && VERIFICATION in d.runs[a].receipts
  }

  /** The upstream argument a stage's task receives: the receipt its predecessor returned in this run. */
  function Passed(run: DagRun, stage: nat): Upstream
    requires stage > 0 ==> stage - 1 in run.receipts
  {
    if stage == 0 then Absent
    else match run.receipts[stage - 1].end
      case Success(_, checksum) => Carries(checksum)
      case Failure(_) => NoChecksum
  }

  function VerificationPassed(run: DagRun): Verification
    requires VERIFICATION in run.receipts
  {
    var r := run.receipts[VERIFICATION];
    Verification(if r.stage == VERIFICATION then "verification" else "", if r.end.Success? then "SUCCEEDED" else "FAILED")
  }

  /** The call a task makes. */
  function CallOf(d: Dag, t: Task): Call
    requires Ready(d, t)
  {
    match t
    case InitializeTask(a, date, r, v, at) => Initialize(a, date, r, v, at)
    case StageTask(a, stage, w) => Execute(d.runs[a].context, stage, Passed(d.runs[a], stage), w)
    case FinalizeTask(a, at) => Finalize(d.runs[a].context, VerificationPassed(d.runs[a]), at)
  }

  /** The Airflow runs after a task: what a completed task returned is kept; a first task that completes starts its run afresh. */
  function RunsAfter(p: Platform, d: Dag, e: Event): map<string, DagRun>
    requires Ready(d, e.task)
  {
    if !e.fate.Completes? then d.runs else
      match e.task
      case InitializeTask(a, date, r, v, at) =>
        var result := InitializeOutcome(p, d.manifests, a, date, r, v, at).result;
        if result.Ok? then d.runs[a := DagRun(result.value, map[])] else d.runs
      case StageTask(a, stage, w) =>
        var run := d.runs[a];
        var result := ExecuteOutcome(p, d.manifests, run.context, stage, Passed(run, stage), w).result;
        if result.Ok? then d.runs[a := run.(receipts := run.receipts[stage := result.value])] else d.runs
      case FinalizeTask(_, _) => d.runs
  }

  function OpOf(d: Dag, e: Event): Op
    requires Ready(d, e.task)
  {
    Op(CallOf(d, e.task), e.fate.DiesBeforeWrite?)
  }

  function Step(p: Platform, d: Dag, e: Event): Dag
  {
    if Ready(d, e.task) then Dag(StoreAfter(p, d.manifests, OpOf(d, e)), RunsAfter(p, d, e)) else d
  }

  function RunDags(p: Platform, events: seq<Event>): Dag
  {
    if events == [] then Dag(map[], map[]) else Step(p, RunDags(p, events[..|events| - 1]), events[|events| - 1])
  }

  /** The calls made over a history of task executions. */
  function Calls(p: Platform, events: seq<Event>): seq<Op>
  {
    if events == [] then [] else
      var d, e := RunDags(p, events[..|events| - 1]), events[|events| - 1];
      Calls(p, events[..|events| - 1]) + if Ready(d, e.task) then [OpOf(d, e)] else []
  }

  lemma RunMore(p: Platform, ops: seq<Op>, op: Op)
    ensures Run(p, ops + [op]) == StoreAfter(p, Run(p, ops), op)
  {
    assert (ops + [op])[..|ops|] == ops;
  }

  /** A history of DAG runs is a history of calls, so all that those keep holds here too. */
  lemma {:induction false} DagsMakeCalls(p: Platform, events: seq<Event>)
    ensures RunDags(p, events).manifests == Run(p, Calls(p, events))
  {
    if events != [] {
      var before, e := events[..|events| - 1], events[|events| - 1];
      DagsMakeCalls(p, before);
      if Ready(RunDags(p, before), e.task) {
        RunMore(p, Calls(p, before), OpOf(RunDags(p, before), e));
      } else {
        assert Calls(p, events) == Calls(p, before);
      }
    }
  }

  // ----- the invariant -----

  /** Under the integration profile a success holds the digest computed from its upstream. */
  ghost predicate Derived(p: Platform, m: Manifest)
  {
    m.identity.parameters.executionProfile == "integration" ==>
      forall i :: Succeeded(m, i) ==> m.stages[i].end == IntegrationEnd(p, m.identity, i, m.stages[i].upstream)
  }

  function IntegrationEnd(p: Platform, identity: RunIdentity, stage: nat, upstream: Digest): StageEnd
  {
    var count := identity.parameters.gateSize;
    var output := IntegrationOutput(stage, count, upstream, p.artifact(identity.runId, stage, count, upstream));
    Success(output, p.checksum(output))
  }

  ghost predicate Linked(p: Platform, m: Manifest, id: Digest)
  {
    Sound(m, id) && Chained(m) && Derived(p, m)
  }

  /** A run's receipts are the success receipts of the manifest its context leads to. */
  ghost predicate RunFits(run: DagRun, store: Manifests)
  {
    && run.context.path == run.context.runId && run.context.path in store
    && ReceiptsFit(run, store[run.context.path])
  }

  ghost predicate ReceiptsFit(run: DagRun, m: Manifest)
  {
    && m.identity.parameters == run.context.parameters
    && forall i :: i in run.receipts ==> Succeeded(m, i) && m.stages[i] == run.receipts[i]
  }

  ghost predicate Fits(p: Platform, d: Dag)
  {
    && (forall id :: id in d.manifests ==> Linked(p, d.manifests[id], id))
    && (forall a :: a in d.runs ==> RunFits(d.runs[a], d.manifests))
  }

  /** What a stage's task is passed is what the chain expects. */
  lemma PassedIsExpected(run: DagRun, m: Manifest, stage: nat)
    requires ReceiptsFit(run, m) && (stage > 0 ==> stage - 1 in run.receipts)
    ensures !Passed(run, stage).NoChecksum? && UpstreamChecksum(Passed(run, stage)) == ExpectedUpstream(m, stage)
    ensures stage > 0 ==> Succeeded(m, stage - 1)
  {
    if stage > 0 { assert Succeeded(m, stage - 1) && m.stages[stage - 1] == run.receipts[stage - 1]; }
  }

  /** So it is never refused, and it leaves the manifest linked. */
  lemma TaskExecutes(p: Platform, run: DagRun, m: Manifest, id: Digest, stage: nat, w: Work)
    requires Linked(p, m, id) && stage < STAGES && run.context.runId == id
    requires ReceiptsFit(run, m) && (stage > 0 ==> stage - 1 in run.receipts)
    ensures Refusal(m, stage, Passed(run, stage)) == None
    ensures Linked(p, Executed(p, m, run.context, stage, Passed(run, stage), w), id)
  {
    var upstream := Passed(run, stage);
    PassedIsExpected(run, m, stage);
    if Records(m, stage, upstream) {
      var r := NewReceipt(p, m, run.context, stage, upstream, w);
      WithReceiptKeepsSound(m, id, r, upstream);
      ChainKeptExactly(p, m, run.context, stage, upstream, w);
      ReceiptDerived(p, m, run.context, stage, upstream, w);
    }
  }

  lemma ReceiptDerived(p: Platform, m: Manifest, c: Context, stage: nat, upstream: Upstream, w: Work)
    requires Derived(p, m) && Records(m, stage, upstream)
    requires c.runId == m.identity.runId && c.parameters == m.identity.parameters
    ensures Derived(p, WithReceipt(m, NewReceipt(p, m, c, stage, upstream, w)))
  {
    var r := NewReceipt(p, m, c, stage, upstream, w);
    var after := WithReceipt(m, r);
    forall i | Succeeded(after, i) ensures i == stage || (Succeeded(m, i) && after.stages[i] == m.stages[i]) {
    }
  }

  lemma AfterKeepsLinked(p: Platform, d: Dag, e: Event, id: Digest)
    requires Fits(p, d) && Ready(d, e.task)
    ensures var after := After(p, At(d.manifests, id), id, OpOf(d, e)); after.Some? ==> Linked(p, after.value, id)
  {
    var existing, op := At(d.manifests, id), OpOf(d, e);
    var after := After(p, existing, id, op);
    AfterKeepsSound(p, existing, id, op);
    if existing.None? {
      assert after.Some? ==> after.value.stages == map[];
    } else if e.task.StageTask? && !op.crashes {
      StageTaskKeepsLinked(p, d, e, id);
    } else {
      StagesUntouched(p, existing.value, id, op);
      LinkedByStages(p, existing.value, after.value, id);
    }
  }

  lemma StagesUntouched(p: Platform, m: Manifest, id: Digest, op: Op)
    requires op.crashes || !op.call.Execute?
    ensures var after := After(p, Some(m), id, op);
      after.Some? && after.value.stages == m.stages && after.value.identity == m.identity
  {
  }

  lemma StageTaskKeepsLinked(p: Platform, d: Dag, e: Event, id: Digest)
    requires Fits(p, d) && Ready(d, e.task) && e.task.StageTask? && id in d.manifests && !e.fate.DiesBeforeWrite?
    ensures var after := After(p, Some(d.manifests[id]), id, OpOf(d, e)); after.Some? && Linked(p, after.value, id)
  {
    var run, m := d.runs[e.task.airflowRunId], d.manifests[id];
    assert RunFits(run, d.manifests) && Linked(p, m, id);
    ExecutedAt(p, m, id, OpOf(d, e));
    if run.context.path == id { TaskExecutes(p, run, m, id, e.task.stage, e.task.work); }
  }

  /** What an execution does to a manifest whose run id is its path: it is the executed one, or untouched by other contexts. */
  lemma ExecutedAt(p: Platform, m: Manifest, id: Digest, op: Op)
    requires op.call.Execute? && !op.crashes && m.identity.runId == id && op.call.stage < STAGES
    requires op.call.context.path == op.call.context.runId
    ensures After(p, Some(m), id, op) ==
      if op.call.context.path == id then Some(Executed(p, m, op.call.context, op.call.stage, op.call.upstream, op.call.work)) else Some(m)
  {
  }

  lemma LinkedByStages(p: Platform, m: Manifest, after: Manifest, id: Digest)
    requires Linked(p, m, id) && after.stages == m.stages && after.identity == m.identity
    ensures Chained(after) && Derived(p, after)
  {
    assert forall i :: Succeeded(m, i) <==> Succeeded(after, i);
    assert forall i :: ExpectedUpstream(m, i) == ExpectedUpstream(after, i);
  }

  /** Later states of the manifests suit a run as well. */
  lemma RunStillFits(p: Platform, d: Dag, op: Op, run: DagRun)
    requires Fits(p, d) && RunFits(run, d.manifests)
    ensures RunFits(run, StoreAfter(p, d.manifests, op))
  {
    var id := run.context.path;
    StoreAfterAt(p, d.manifests, op, id);
    AfterKeeps(p, d.manifests[id], id, op);
  }

  /** The run a completed stage task belongs to, with the receipt it returned, suits the manifests it leaves. */
  lemma ReturnedReceiptFits(p: Platform, d: Dag, e: Event)
    requires Fits(p, d) && Ready(d, e.task) && e.fate.Completes? && e.task.StageTask?
    ensures var a := e.task.airflowRunId; RunFits(RunsAfter(p, d, e)[a], StoreAfter(p, d.manifests, OpOf(d, e)))
  {
    var run := d.runs[e.task.airflowRunId];
    assert RunFits(run, d.manifests);
    RunStillFits(p, d, OpOf(d, e), run);
    var m := d.manifests[run.context.path];
    TaskExecutes(p, run, m, run.context.path, e.task.stage, e.task.work);
    ResultIsHeld(p, m, run.context, e.task.stage, Passed(run, e.task.stage), e.task.work);
  }

  /** A receipt an execution returns is the success the manifest then holds. */
  lemma ResultIsHeld(p: Platform, m: Manifest, c: Context, stage: nat, upstream: Upstream, w: Work)
    ensures var result, after := ExecuteResult(p, m, c, stage, upstream, w), Executed(p, m, c, stage, upstream, w);
      result.Ok? ==> Succeeded(after, stage) && after.stages[stage] == result.value
  {
  }

  lemma NewRunFits(p: Platform, d: Dag, e: Event)
    requires Fits(p, d) && Ready(d, e.task) && e.fate.Completes? && e.task.InitializeTask?
    ensures var a := e.task.airflowRunId;
      a in RunsAfter(p, d, e) ==> RunFits(RunsAfter(p, d, e)[a], StoreAfter(p, d.manifests, OpOf(d, e)))
  {
    var a := e.task.airflowRunId;
    if a in d.runs { RunStillFits(p, d, OpOf(d, e), d.runs[a]); }
  }

  lemma StepKeepsFits(p: Platform, d: Dag, e: Event)
    requires Fits(p, d)
    ensures Fits(p, Step(p, d, e))
  {
    if Ready(d, e.task) {
      var after, op := Step(p, d, e), OpOf(d, e);
      forall id | id in after.manifests ensures Linked(p, after.manifests[id], id) {
        StoreAfterAt(p, d.manifests, op, id);
        AfterKeepsLinked(p, d, e, id);
      }
      forall a | a in after.runs ensures RunFits(after.runs[a], after.manifests) {
        RunsAfterFit(p, d, e, a);
      }
    }
  }

  lemma RunsAfterFit(p: Platform, d: Dag, e: Event, a: string)
    requires Fits(p, d) && Ready(d, e.task) && a in RunsAfter(p, d, e)
    ensures RunFits(RunsAfter(p, d, e)[a], StoreAfter(p, d.manifests, OpOf(d, e)))
  {
    if e.fate.Completes? && e.task.StageTask? && a == e.task.airflowRunId {
      ReturnedReceiptFits(p, d, e);
    } else if e.fate.Completes? && e.task.InitializeTask? && a == e.task.airflowRunId {
      NewRunFits(p, d, e);
    } else {
      assert RunsAfter(p, d, e)[a] == d.runs[a];
      RunStillFits(p, d, OpOf(d, e), d.runs[a]);
    }
  }

  lemma {:induction false} DagsFit(p: Platform, events: seq<Event>)
    ensures Fits(p, RunDags(p, events))
  {
    if events != [] {
      DagsFit(p, events[..|events| - 1]);
      StepKeepsFits(p, RunDags(p, events[..|events| - 1]), events[|events| - 1]);
    }
  }

  // ----- main results -----

  /** Whatever fails, retries, crashes or reruns, each receipt names its predecessor's output checksum, and the first names ROOT. */
  lemma DagRunsKeepTheChain(p: Platform, events: seq<Event>, id: Digest, stage: nat)
    requires id in RunDags(p, events).manifests && stage in RunDags(p, events).manifests[id].stages
    ensures var m := RunDags(p, events).manifests[id];
      if stage == 0 then m.stages[stage].upstream == ROOT
      else Succeeded(m, stage - 1) && m.stages[stage].upstream == m.stages[stage - 1].end.checksum
  {
    DagsFit(p, events);
    var m := RunDags(p, events).manifests[id];
    assert Linked(p, m, id);
    assert m.stages[stage].upstream == ExpectedUpstream(m, stage);
  }

  /**
   * A stage task that Airflow starts is never refused: no conflict, no missing predecessor, no missing manifest. It returns
   * the receipt the manifest then holds, or its own work failed. A finalize task always succeeds.
   */
  lemma NoTaskIsRefused(p: Platform, events: seq<Event>, t: Task)
    requires Ready(RunDags(p, events), t)
    ensures var d := RunDags(p, events);
      match t
      case InitializeTask(_, _, _, _, _) => true
      case StageTask(a, stage, w) =>
        var run := d.runs[a];
        var answer := ExecuteOutcome(p, d.manifests, run.context, stage, Passed(run, stage), w);
        && run.context.path in answer.manifests
        && (answer.result.Ok? ==> answer.manifests[run.context.path].stages == answer.manifests[run.context.path].stages[stage := answer.result.value])
        && (answer.result.Err? ==> answer.result.error == StageFailed && !Succeeded(d.manifests[run.context.path], stage))
      case FinalizeTask(a, at) =>
        FinalizeOutcome(d.manifests, d.runs[a].context, VerificationPassed(d.runs[a]), at).result.Ok?
  {
    DagsFit(p, events);
    var d := RunDags(p, events);
    match t
    case InitializeTask(_, _, _, _, _) =>
    case StageTask(a, stage, w) =>
      var run := d.runs[a];
      assert RunFits(run, d.manifests);
      TaskExecutes(p, run, d.manifests[run.context.path], run.context.path, stage, w);
      TaskAnswer(p, d.manifests, run.context, stage, Passed(run, stage), w);
    case FinalizeTask(a, at) =>
      var run := d.runs[a];
      assert RunFits(run, d.manifests);
      VerifiedMeansAll(d.manifests[run.context.path], run.context.path);
  }

  lemma TaskAnswer(p: Platform, store: Manifests, c: Context, stage: nat, upstream: Upstream, w: Work)
    requires stage < STAGES && LoadContext(store, c).Ok?
    requires Refusal(store[c.path], stage, upstream).None?
    ensures var answer := ExecuteOutcome(p, store, c, stage, upstream, w);
      && c.path in answer.manifests
      && (answer.result.Ok? ==> answer.manifests[c.path].stages == answer.manifests[c.path].stages[stage := answer.result.value])
      && (answer.result.Err? ==> answer.result.error == StageFailed && !Succeeded(store[c.path], stage))
  {
  }

  lemma VerifiedMeansAll(m: Manifest, id: Digest)
    requires Sound(m, id) && Succeeded(m, VERIFICATION)
    ensures AllSucceeded(m) && m.stages[VERIFICATION].stage == VERIFICATION
  {
    forall i: nat | i < STAGES ensures Succeeded(m, i) {
      if i < VERIFICATION { OrderedPrefix(m, i, VERIFICATION); }
    }
  }

  /** Each stage of a run id is recorded as a success at most once over all DAG runs, and its attempts count its recorded executions. */
  lemma StagesSucceedOnce(p: Platform, events: seq<Event>, id: Digest, stage: nat)
    ensures var (written, successes) := Written(p, Calls(p, events), id, stage);
      && written == AttemptOf(At(RunDags(p, events).manifests, id), stage)
      && successes == SuccessOf(At(RunDags(p, events).manifests, id), stage) <= 1
  {
    DagsMakeCalls(p, events);
    AttemptsCountReceipts(p, Calls(p, events), id, stage);
  }

  lemma {:induction false} CallsExtend(p: Platform, events: seq<Event>, more: seq<Event>)
    ensures Calls(p, events) <= Calls(p, events + more)
    decreases |more|
  {
    if more == [] {
      assert events + more == events;
    } else {
      var n := |more| - 1;
      CallsExtend(p, events, more[..n]);
      assert (events + more)[..|events| + n] == events + more[..n];
    }
  }

  /** Running the DAG again on a finalised manifest adds run ids and rerun events and moves times; nothing else changes. */
  lemma RerunsOfAFinishedRun(p: Platform, events: seq<Event>, more: seq<Event>, id: Digest)
    requires id in RunDags(p, events).manifests && RunDags(p, events).manifests[id].status == SUCCEEDED
    ensures id in RunDags(p, events + more).manifests
    ensures var m, later := RunDags(p, events).manifests[id], RunDags(p, events + more).manifests[id];
      OnlyRerun(m, later) && m.airflowRunIds <= later.airflowRunIds && m.reruns <= later.reruns
  {
    DagsMakeCalls(p, events);
    DagsMakeCalls(p, events + more);
    CallsExtend(p, events, more);
    var calls, all := Calls(p, events), Calls(p, events + more);
    assert all == calls + all[|calls|..];
    LaterCallsKeep(p, calls, all[|calls|..], id);
  }

  /** The output checksum of each stage under the integration profile. */
  function ChainChecksum(p: Platform, identity: RunIdentity, stage: nat): Digest
  {
    IntegrationEnd(p, identity, stage, if stage == 0 then ROOT else ChainChecksum(p, identity, stage - 1)).checksum
  }

  /** Under the integration profile the checksums depend on the run's identity alone, not on which attempts or reruns produced them. */
  lemma {:induction false} IntegrationIsDeterministic(p: Platform, events: seq<Event>, id: Digest, stage: nat)
    requires id in RunDags(p, events).manifests && Succeeded(RunDags(p, events).manifests[id], stage)
    requires RunDags(p, events).manifests[id].identity.parameters.executionProfile == "integration"
    ensures var m := RunDags(p, events).manifests[id]; m.stages[stage].end.checksum == ChainChecksum(p, m.identity, stage)
  {
    DagsFit(p, events);
    DagRunsKeepTheChain(p, events, id, stage);
    assert Linked(p, RunDags(p, events).manifests[id], id);
    if stage > 0 { IntegrationIsDeterministic(p, events, id, stage - 1); }
  }
}
